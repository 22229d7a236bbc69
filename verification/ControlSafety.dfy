/** What every sequence of admin mutations keeps between the live state and the config. */
module ControlSafety {
  import opened Base
  import opened Secret
  import C = Config
  import K = ConfigCodec
  import T = ActiveTarget
  import opened Control

  // ---------------------------------------------------------------- the invariant

  /** The same slots, in whatever order they were attached. */
  ghost predicate SameSlots(peers: seq<T.SlotSpec>, c: C.Config) {
    && PeerSlots(c.tun, c.peer).Some?
    && forall x :: x in peers <==> x in PeerSlots(c.tun, c.peer).value
  }

  /** The live forwards, servers and peer slots are the declared ones. */
  ghost predicate Mirrors(c: Ctl) {
    && c.forwards == ForwardMap(c.cfg.forwards)
    && c.servers == Targets(c.cfg.servers)
    && SameSlots(c.active.peers, c.cfg)
    && c.hasPeerSecret == c.cfg.peerSecret.Some?
  }

  /** The running target is a declared server, and a set `active` names it. */
  predicate Pointed(c: Ctl) {
    && C.Named(c.cfg.servers, c.active.target.name)
    && (c.cfg.active.Some? ==> c.cfg.active.value == c.active.target.name)
  }

  /** The sessions and the fallback body are still the ones the config declares. */
  predicate Rooted(c: Ctl) {
    c.fallback == FallbackOf(c.cfg) && c.pppoe == PppoeRuns(c.cfg.pppoe)
  }

  /** A declared device is what the client falls back to. */
  lemma {:induction false} DeviceFallback(c: Ctl)
    requires C.Valid(c.cfg) && Rooted(c)
    ensures c.cfg.tap.Some? || C.ForServer(c.cfg.tun) ==> c.fallback.Device?
    ensures C.ForServer(c.cfg.tun) ==> c.fallback.Device? && c.fallback.device.TunDevice?
  {
  }

  ghost predicate Good(c: Ctl) {
    C.Valid(c.cfg) && K.WellFormed(c.cfg) && Mirrors(c) && Pointed(c) && Rooted(c) && T.Admitted(c.active)
  }

  // ---------------------------------------------------------------- one part of the config replaced

  lemma {:induction false} ForwardsValid(c: C.Config, fs: seq<C.Forward>)
    requires C.Valid(c) && K.WellFormed(c) && C.DistinctForwards(fs)
    requires K.ForwardsFit(fs)
    requires c.tap.Some? || C.ForServer(c.tun) ==> fs == []
    ensures C.Valid(c.(forwards := fs)) && K.WellFormed(c.(forwards := fs))
  {
  }

  /** The running part may move as long as it keeps its slots and stays admitted. */
  predicate Follows(a: T.Active, a': T.Active) {
    a'.peers == a.peers && T.Admitted(a')
  }

  lemma {:induction false} ForwardsReplaced(c: Ctl, fs: seq<C.Forward>)
    requires Good(c) && C.DistinctForwards(fs) && K.ForwardsFit(fs)
    requires c.fallback.Device? ==> fs == [] || c.cfg.forwards != []
    ensures Good(c.(forwards := ForwardMap(fs), cfg := c.cfg.(forwards := fs)))
  {
    DeviceFallback(c);
    ForwardsValid(c.cfg, fs);
    var c' := c.(forwards := ForwardMap(fs), cfg := c.cfg.(forwards := fs));
    assert Mirrors(c') && Pointed(c') && Rooted(c');
  }

  lemma {:induction false} ServersValid(c: C.Config, ss: seq<C.Server>, active: Option<string>)
    requires C.Valid(c) && K.WellFormed(c) && C.ServersOk(ss, c.peerSecret)
    requires K.ServersFit(ss)
    requires active.Some? ==> C.Named(ss, active.value) && Lexable(active.value)
    ensures C.Valid(c.(servers := ss, active := active)) && K.WellFormed(c.(servers := ss, active := active))
  {
  }

  lemma {:induction false} ServersReplaced(c: Ctl, ss: seq<C.Server>, active: Option<string>, a: T.Active)
    requires Good(c) && C.ServersOk(ss, c.cfg.peerSecret) && K.ServersFit(ss)
    requires Follows(c.active, a) && C.Named(ss, a.target.name)
    requires active.Some? ==> active.value == a.target.name && Lexable(active.value)
    ensures Good(c.(servers := Targets(ss), cfg := c.cfg.(servers := ss, active := active), active := a))
  {
    ServersValid(c.cfg, ss, active);
    var c' := c.(servers := Targets(ss), cfg := c.cfg.(servers := ss, active := active), active := a);
    assert Mirrors(c') && Pointed(c') && Rooted(c');
  }

  /** Only the running part moved. */
  lemma {:induction false} OnlyActiveMoved(c: Ctl, a: T.Active)
    requires Good(c) && Follows(c.active, a) && a.target == c.active.target
    ensures Good(c.(active := a))
  {
    var c' := c.(active := a);
    assert Mirrors(c') && Pointed(c') && Rooted(c');
  }

  // ---------------------------------------------------------------- forwards

  lemma {:induction false} ForwardMapHas(fs: seq<C.Forward>, k: ForwardKey)
    ensures k in ForwardMap(fs) <==> exists i :: 0 <= i < |fs| && KeyOf(fs[i]) == k
    decreases |fs|
  {
    if fs != [] {
      var front := fs[..|fs| - 1];
      ForwardMapHas(front, k);
      if exists i :: 0 <= i < |front| && KeyOf(front[i]) == k {
        var i :| 0 <= i < |front| && KeyOf(front[i]) == k;
        assert fs[i] == front[i];
      }
      if exists i :: 0 <= i < |fs| && KeyOf(fs[i]) == k {
        var i :| 0 <= i < |fs| && KeyOf(fs[i]) == k;
        assert i < |front| ==> front[i] == fs[i];
      }
    }
  }

  lemma {:induction false} ForwardMapAppend(fs: seq<C.Forward>, f: C.Forward)
    ensures ForwardMap(fs + [f]) == ForwardMap(fs)[KeyOf(f) := FwdOf(f)]
  {
    assert (fs + [f])[..|fs|] == fs;
  }

  lemma {:induction false} ForwardMapDrop(fs: seq<C.Forward>, k: ForwardKey)
    ensures ForwardMap(DropForward(fs, k)) == ForwardMap(fs) - {k}
    decreases |fs|
  {
    if fs != [] {
      var front, last := fs[..|fs| - 1], fs[|fs| - 1];
      ForwardMapDrop(front, k);
      if KeyOf(last) == k {
        assert DropForward(fs, k) == DropForward(front, k);
      } else {
        ForwardMapAppend(DropForward(front, k), last);
      }
    }
  }

  lemma {:induction false} ForwardMapSet(fs: seq<C.Forward>, i: nat, f: C.Forward)
    requires i < |fs| && C.DistinctForwards(fs) && KeyOf(f) == KeyOf(fs[i])
    ensures ForwardMap(fs[i := f]) == ForwardMap(fs)[KeyOf(f) := FwdOf(f)]
    decreases |fs|
  {
    var front, last := fs[..|fs| - 1], fs[|fs| - 1];
    if i == |front| {
      assert fs[i := f][..|front|] == front;
    } else {
      ForwardMapSet(front, i, f);
      assert fs[i := f][..|front|] == front[i := f];
      assert KeyOf(last) != KeyOf(f) by {
        assert fs[i].proto != last.proto || fs[i].port != last.port;
      }
    }
  }

  lemma {:induction false} ForwardMapAt(fs: seq<C.Forward>, i: nat)
    requires i < |fs| && C.DistinctForwards(fs)
    ensures KeyOf(fs[i]) in ForwardMap(fs) && ForwardMap(fs)[KeyOf(fs[i])] == FwdOf(fs[i])
  {
    assert fs[i := fs[i]] == fs;
    ForwardMapSet(fs, i, fs[i]);
  }

  lemma {:induction false} DropForwardKeeps(fs: seq<C.Forward>, k: ForwardKey)
    requires C.DistinctForwards(fs) && K.ForwardsFit(fs)
    ensures var left := DropForward(fs, k);
            && C.DistinctForwards(left) && K.ForwardsFit(left)
            && (forall f :: f in left ==> f in fs)
    decreases |fs|
  {
    if fs != [] {
      var front, last := fs[..|fs| - 1], fs[|fs| - 1];
      DropForwardKeeps(front, k);
      var left := DropForward(front, k);
      forall i | 0 <= i < |left|
        ensures left[i].proto != last.proto || left[i].port != last.port
      {
        assert left[i] in front;
        var m :| 0 <= m < |front| && front[m] == left[i];
        assert fs[m] == left[i];
      }
    }
  }

  /** The three forward edits keep everything. */
  lemma {:induction false} SetOptionsKeeps(c: Ctl, m: Mutation)
    requires Good(c) && m.SetForwardOptions? && OnTheWire(m)
    ensures Good(SetForwardOptionsIn(c, m).0)
  {
    var k := (m.proto, m.port);
    if SetForwardOptionsIn(c, m).1 {
      var fs := c.cfg.forwards;
      ForwardMapHas(fs, k);
      var i := IndexOf(fs, k).value;
      var f := fs[i].(enabled := m.enabled, proxy := m.proxy, idle := IdleOf(m.idleSecs));
      OptionsReplaced(fs, i, f);
      assert SetForwardOptionsIn(c, m).0 == c.(forwards := ForwardMap(fs[i := f]),
                                               cfg := c.cfg.(forwards := fs[i := f]));
      ForwardsReplaced(c, fs[i := f]);
    }
  }

  lemma {:induction false} OptionsReplaced(fs: seq<C.Forward>, i: nat, f: C.Forward)
    requires i < |fs| && C.DistinctForwards(fs) && KeyOf(f) == KeyOf(fs[i]) && f.target == fs[i].target
    requires K.ForwardsFit(fs)
    requires (f.proxy ==> f.proto == Tcp) && (f.idle.Some? ==> 1 <= f.idle.value < U32_LIMIT)
    ensures C.DistinctForwards(fs[i := f]) && K.ForwardsFit(fs[i := f])
    ensures KeyOf(f) in ForwardMap(fs)
    ensures ForwardMap(fs[i := f]) ==
            ForwardMap(fs)[KeyOf(f) := ForwardMap(fs)[KeyOf(f)].(enabled := f.enabled, proxy := f.proxy,
                                                                 idle := f.idle)]
  {
    ForwardMapAt(fs, i);
    ForwardMapSet(fs, i, f);
  }

  lemma {:induction false} ForwardAppended(c: Ctl, f: C.Forward)
    requires Good(c) && !c.fallback.Device? && KeyOf(f) !in c.forwards && K.ForwardFits(f)
    ensures Good(c.(forwards := c.forwards[KeyOf(f) := FwdOf(f)], cfg := c.cfg.(forwards := c.cfg.forwards + [f])))
  {
    ForwardMapAppend(c.cfg.forwards, f);
    ForwardMapHas(c.cfg.forwards, KeyOf(f));
    AppendedForward(c.cfg.forwards, f);
    assert c.forwards[KeyOf(f) := FwdOf(f)] == ForwardMap(c.cfg.forwards + [f]);
    ForwardsReplaced(c, c.cfg.forwards + [f]);
  }

  lemma {:induction false} AddForwardKeeps(c: Ctl, m: Mutation)
    requires Good(c) && m.AddForward? && OnTheWire(m)
    ensures Good(AddForwardIn(c, m).0)
  {
    if AddForwardIn(c, m).1 {
      var target := if m.target == "" then K.DefaultTarget(m.port) else m.target;
      NoControlIsLexable(target);
      ForwardAppended(c, C.Forward(m.proto, m.port, target, m.proxy, IdleOf(m.idleSecs), m.enabled));
    }
  }

  lemma {:induction false} AppendedForward(fs: seq<C.Forward>, f: C.Forward)
    requires C.DistinctForwards(fs) && !(exists i :: 0 <= i < |fs| && KeyOf(fs[i]) == KeyOf(f))
    requires K.ForwardFits(f) && K.ForwardsFit(fs)
    ensures C.DistinctForwards(fs + [f]) && K.ForwardsFit(fs + [f])
  {
    forall i | 0 <= i < |fs|
      ensures fs[i].proto != f.proto || fs[i].port != f.port
    {
      assert KeyOf(fs[i]) != KeyOf(f);
    }
  }

  lemma {:induction false} RemoveForwardKeeps(c: Ctl, k: ForwardKey)
    requires Good(c)
    ensures Good(RemoveForwardIn(c, k).0)
  {
    if RemoveForwardIn(c, k).1 {
      ForwardMapDrop(c.cfg.forwards, k);
      DropForwardKeeps(c.cfg.forwards, k);
      ForwardsReplaced(c, DropForward(c.cfg.forwards, k));
    }
  }

  lemma {:induction false} NoControlIsLexable(s: string)
    requires !HasControl(s)
    ensures Lexable(s)
  {
    forall i | 0 <= i < |s|
      ensures s[i] >= ' '
    {
      assert !IsControl(s[i]);
    }
  }

  // ---------------------------------------------------------------- servers

  lemma {:induction false} FoundIsNamed(ss: seq<C.Server>, name: string)
    ensures Find(Targets(ss), name).Some? <==> C.Named(ss, name)
  {
    var t := Find(Targets(ss), name);
    if t.Some? {
      var i :| 0 <= i < |Targets(ss)| && Targets(ss)[i] == t.value;
      assert ss[i].name == name;
    }
    if C.Named(ss, name) {
      var i :| 0 <= i < |ss| && ss[i].name == name;
      assert Targets(ss)[i].name == name;
    }
  }

  lemma {:induction false} FoundIsLexable(ss: seq<C.Server>, name: string)
    requires C.Named(ss, name) && K.ServersFit(ss)
    ensures Lexable(name)
  {
  }

  lemma {:induction false} SelectKeeps(c: Ctl, name: string, dht: bool)
    requires Good(c)
    ensures Good(SelectServerIn(c, name, dht).0)
  {
    if SelectServerIn(c, name, dht).1 {
      var t := Find(c.servers, name).value;
      FoundIsNamed(c.cfg.servers, name);
      FoundIsLexable(c.cfg.servers, name);
      T.DoAdmitted(c.active, T.OpSwitch(t));
      ServersReplaced(c, c.cfg.servers, Some(name), T.SwitchTo(c.active, t));
    }
  }

  /** A connect that names no server moves the running part alone. */
  lemma {:induction false} ReconnectKeeps(c: Ctl, dht: bool)
    requires Good(c) && ConnectIn(c, "", dht).1
    ensures Good(ConnectIn(c, "", dht).0)
  {
    var a := T.Connect(c.active, None, BootMode(c)).0;
    T.DoAdmitted(c.active, T.OpConnect(None, BootMode(c)));
    assert ConnectIn(c, "", dht).0 == c.(active := a);
    OnlyActiveMoved(c, a);
  }

  lemma {:induction false} ConnectKeeps(c: Ctl, name: string, dht: bool)
    requires Good(c)
    ensures Good(ConnectIn(c, name, dht).0)
  {
    if ConnectIn(c, name, dht).1 {
      if name == "" {
        ReconnectKeeps(c, dht);
      } else {
        var target := Find(c.servers, name);
        var a := T.Connect(c.active, target, BootMode(c)).0;
        T.DoAdmitted(c.active, T.OpConnect(target, BootMode(c)));
        FoundIsNamed(c.cfg.servers, name);
        FoundIsLexable(c.cfg.servers, name);
        assert ConnectIn(c, name, dht).0 == c.(active := a, cfg := c.cfg.(active := Some(name)));
        ServersReplaced(c, c.cfg.servers, Some(name), a);
      }
    }
  }

  lemma {:induction false} TargetsAppend(ss: seq<C.Server>, s: C.Server)
    ensures Targets(ss + [s]) == Targets(ss) + [TargetOf(s)]
  {
    assert (ss + [s])[..|ss|] == ss;
  }

  lemma {:induction false} NormSettles(s: string)
    requires Normalize(s).Some?
    ensures Norm(Normalize(s).value) == Normalize(s).value && Decode(Normalize(s).value) == Decode(s)
  {
    NormalizeKeepsKey(s);
  }

  lemma {:induction false} NormKeepsKey(s: string)
    ensures Decode(Norm(s)) == Decode(s)
  {
    if Normalize(s).Some? {
      NormalizeKeepsKey(s);
    }
  }

  /** No declared discovery credential is the new key, when no live one is. */
  lemma {:induction false} NoDiscoveryIsKey(ss: seq<C.Server>, k: Option<Bytes>, i: nat)
    requires k.Some? && !IsDiscovery(Targets(ss), k) && i < |ss| && ss[i].discovery.Some?
    ensures Decode(ss[i].discovery.value) != k
  {
    var d := ss[i].discovery.value;
    NormKeepsKey(d);
    var ts := Targets(ss);
    assert ts[i].discovery == Some(Norm(d)) && Decode(ts[i].discovery.value) == Decode(d);
  }

  lemma {:induction false} IsSessionKeyAppend(ss: seq<C.Server>, s: C.Server, k: Option<Bytes>)
    ensures C.IsSessionKey(ss + [s], k) <==> C.IsSessionKey(ss, k) || Decode(s.secret) == k || Decode(s.credential) == k
  {
    var all := ss + [s];
    if C.IsSessionKey(ss, k) {
      var i :| 0 <= i < |ss| && (Decode(ss[i].secret) == k || Decode(ss[i].credential) == k);
      assert all[i] == ss[i];
    }
    if C.IsSessionKey(all, k) {
      var i :| 0 <= i < |all| && (Decode(all[i].secret) == k || Decode(all[i].credential) == k);
      assert i < |ss| ==> ss[i] == all[i];
    }
    assert all[|ss|] == s;
  }

  /** The declared server an accepted add appends. */
  function Added(m: Mutation): C.Server
    requires m.AddServer? && Normalize(m.secret).Some?
  {
    var secret := Normalize(m.secret).value;
    C.Server(m.name, m.addr, None, secret, secret, None, m.transport)
  }

  /** The rule the dispatcher does not check: the new key is not the peer key. */
  predicate ApartFromPeer(c: C.Config, m: Mutation) {
    m.AddServer? && c.peerSecret.Some? ==> Decode(m.secret) != Decode(c.peerSecret.value)
  }

  /** A new entry the dispatcher lets through: its name free, its key no discovery credential. */
  predicate Addable(ss: seq<C.Server>, s: C.Server) {
    && s.discovery.None? && s.addr != "dht" && s.secret == s.credential && Decode(s.secret).Some?
    && !IsDiscovery(Targets(ss), Decode(s.secret))
    && !C.Named(ss, s.name)
  }

  lemma {:induction false} AddedDiscovery(ss: seq<C.Server>, s: C.Server, p: Option<string>, i: nat)
    requires C.ServersOk(ss, p) && Addable(ss, s) && i < |ss|
    ensures C.DiscoveryOk(ss[i], ss + [s], p)
  {
    assert C.DiscoveryOk(ss[i], ss, p);
    if ss[i].discovery.Some? {
      NoDiscoveryIsKey(ss, Decode(s.secret), i);
      IsSessionKeyAppend(ss, s, Decode(ss[i].discovery.value));
    }
  }

  lemma {:induction false} AddedServersOk(ss: seq<C.Server>, s: C.Server, p: Option<string>)
    requires C.ServersOk(ss, p) && Addable(ss, s)
    ensures C.ServersOk(ss + [s], p) <==> (p.Some? ==> Decode(s.secret) != Decode(p.value))
  {
    var all := ss + [s];
    assert all[|ss|] == s;
    if p.Some? ==> Decode(s.secret) != Decode(p.value) {
      forall i | 0 <= i < |all|
        ensures C.DiscoveryOk(all[i], all, p)
      {
        if i < |ss| {
          AddedDiscovery(ss, s, p, i);
        }
      }
    } else {
      assert !C.KeysOk(all[|ss|], p);
    }
  }

  lemma {:induction false} AcceptedIsAddable(c: Ctl, m: Mutation)
    requires m.AddServer? && AddServerIn(c, m).1 && c.servers == Targets(c.cfg.servers)
    ensures Addable(c.cfg.servers, Added(m)) && Decode(Added(m).secret) == Decode(m.secret) && K.ServerFits(Added(m))
    ensures TargetOf(Added(m)) == T.Target(m.name, m.addr, Added(m).secret, Added(m).secret, None, m.transport)
  {
    NormSettles(m.secret);
    FoundIsNamed(c.cfg.servers, m.name);
    NoControlIsLexable(m.name);
    NoControlIsLexable(m.addr);
  }

  /** Main result: an accepted add leaves a config that boots exactly when the new secret is
      not the peer secret, which the dispatcher never compares. */
  lemma {:induction false} AddServerBootsIff(c: Ctl, m: Mutation)
    requires Good(c) && m.AddServer? && AddServerIn(c, m).1
    ensures C.Valid(AddServerIn(c, m).0.cfg) <==> ApartFromPeer(c.cfg, m)
  {
    var ss, s := c.cfg.servers, Added(m);
    AcceptedIsAddable(c, m);
    AddedServersOk(ss, s, c.cfg.peerSecret);
    assert AddServerIn(c, m).0.cfg == c.cfg.(servers := ss + [s]);
    if c.cfg.active.Some? {
      NamedStays(ss, s, c.cfg.active.value);
    }
    ServersDecide(c.cfg, ss + [s]);
  }

  lemma {:induction false} ServersDecide(c: C.Config, ss: seq<C.Server>)
    requires C.Valid(c) && (c.active.Some? ==> C.Named(ss, c.active.value))
    ensures C.Valid(c.(servers := ss)) <==> C.ServersOk(ss, c.peerSecret)
  {
  }

  lemma {:induction false} NamedStays(ss: seq<C.Server>, s: C.Server, name: string)
    requires C.Named(ss, name)
    ensures C.Named(ss + [s], name)
  {
    var i :| 0 <= i < |ss| && ss[i].name == name;
    assert (ss + [s])[i].name == name;
  }

  lemma {:induction false} ServerAppended(c: Ctl, s: C.Server)
    requires Good(c) && Addable(c.cfg.servers, s) && K.ServerFits(s)
    requires c.cfg.peerSecret.Some? ==> Decode(s.secret) != Decode(c.cfg.peerSecret.value)
    ensures Good(c.(servers := c.servers + [TargetOf(s)], cfg := c.cfg.(servers := c.cfg.servers + [s])))
  {
    AddedServersOk(c.cfg.servers, s, c.cfg.peerSecret);
    NamedStays(c.cfg.servers, s, c.active.target.name);
    TargetsAppend(c.cfg.servers, s);
    var ss := c.cfg.servers + [s];
    assert K.ServersFit(ss);
    assert c.cfg.(servers := ss) == c.cfg.(servers := ss, active := c.cfg.active);
    ServersReplaced(c, ss, c.cfg.active, c.active);
  }

  lemma {:induction false} AddServerKeeps(c: Ctl, m: Mutation)
    requires Good(c) && m.AddServer? && ApartFromPeer(c.cfg, m)
    ensures Good(AddServerIn(c, m).0)
  {
    if AddServerIn(c, m).1 {
      AcceptedIsAddable(c, m);
      ServerAppended(c, Added(m));
    }
  }

  lemma {:induction false} DropServerTargets(ss: seq<C.Server>, name: string)
    ensures Targets(DropServer(ss, name)) == DropTarget(Targets(ss), name)
    decreases |ss|
  {
    if ss != [] {
      var front, last := ss[..|ss| - 1], ss[|ss| - 1];
      DropServerTargets(front, name);
      assert Targets(ss)[..|front|] == Targets(front);
      var left := DropServer(front, name);
      if last.name != name {
        TargetsAppend(left, last);
      } else {
        assert DropServer(ss, name) == left;
      }
    }
  }

  lemma {:induction false} DropServerHolds(ss: seq<C.Server>, name: string)
    ensures forall s :: s in DropServer(ss, name) <==> s in ss && s.name != name
    decreases |ss|
  {
    if ss != [] {
      var front, last := ss[..|ss| - 1], ss[|ss| - 1];
      DropServerHolds(front, name);
      assert ss == front + [last];
      forall s
        ensures s in DropServer(ss, name) <==> s in ss && s.name != name
      {
        assert s in ss <==> s in front || s == last;
      }
    }
  }

  lemma {:induction false} DropServerDistinct(ss: seq<C.Server>, name: string)
    requires C.DistinctNames(ss)
    ensures C.DistinctNames(DropServer(ss, name))
    decreases |ss|
  {
    if ss != [] {
      var front, last := ss[..|ss| - 1], ss[|ss| - 1];
      DropServerDistinct(front, name);
      DropServerHolds(front, name);
      var left := DropServer(front, name);
      forall i | 0 <= i < |left|
        ensures left[i].name != last.name
      {
        assert left[i] in front;
        var m :| 0 <= m < |front| && front[m] == left[i];
        assert ss[m] == left[i];
      }
    }
  }

  lemma {:induction false} FewerKeys(left: seq<C.Server>, ss: seq<C.Server>, k: Option<Bytes>)
    requires forall s :: s in left ==> s in ss
    ensures C.IsSessionKey(left, k) ==> C.IsSessionKey(ss, k)
  {
    if C.IsSessionKey(left, k) {
      var j :| 0 <= j < |left| && (Decode(left[j].secret) == k || Decode(left[j].credential) == k);
      assert left[j] in ss;
      var n :| 0 <= n < |ss| && ss[n] == left[j];
    }
  }

  lemma {:induction false} FewerServersOk(ss: seq<C.Server>, left: seq<C.Server>, p: Option<string>)
    requires C.ServersOk(ss, p) && C.DistinctNames(left) && forall s :: s in left ==> s in ss
    ensures C.ServersOk(left, p)
  {
    forall i | 0 <= i < |left|
      ensures C.KeysOk(left[i], p) && C.DiscoveryOk(left[i], left, p)
    {
      assert left[i] in ss;
      var m :| 0 <= m < |ss| && ss[m] == left[i];
      assert C.KeysOk(ss[m], p) && C.DiscoveryOk(ss[m], ss, p);
      if left[i].discovery.Some? {
        FewerKeys(left, ss, Decode(left[i].discovery.value));
      }
    }
  }

  lemma {:induction false} NamedSurvives(ss: seq<C.Server>, name: string, gone: string)
    requires C.Named(ss, name) && name != gone
    ensures C.Named(DropServer(ss, gone), name)
  {
    DropServerHolds(ss, gone);
    var i :| 0 <= i < |ss| && ss[i].name == name;
    assert ss[i] in DropServer(ss, gone);
  }

  lemma {:induction false} DroppedServersOk(ss: seq<C.Server>, name: string, p: Option<string>)
    requires C.ServersOk(ss, p) && K.ServersFit(ss)
    ensures C.ServersOk(DropServer(ss, name), p) && K.ServersFit(DropServer(ss, name))
  {
    var left := DropServer(ss, name);
    DropServerHolds(ss, name);
    DropServerDistinct(ss, name);
    FewerServersOk(ss, left, p);
    forall i | 0 <= i < |left|
      ensures K.ServerFits(left[i])
    {
      assert left[i] in ss;
    }
  }

  lemma {:induction false} RemoveServerKeeps(c: Ctl, name: string)
    requires Good(c)
    ensures Good(RemoveServerIn(c, name).0)
  {
    if RemoveServerIn(c, name).1 {
      var ss := c.cfg.servers;
      DropServerTargets(ss, name);
      DroppedServersOk(ss, name, c.cfg.peerSecret);
      NamedSurvives(ss, c.active.target.name, name);
      ServersReplaced(c, DropServer(ss, name), c.cfg.active, c.active);
    }
  }

  // ---------------------------------------------------------------- bodies

  lemma {:induction false} SpawnKeeps(c: Ctl, name: string)
    requires Good(c)
    ensures Good(SpawnPppoeIn(c, name).0)
  {
    match FindSession(c.pppoe, name)
    case None =>
    case Some(config) =>
      T.DoAdmitted(c.active, T.OpSetMode(T.Pppoe(name, config)));
      OnlyActiveMoved(c, SpawnPppoeIn(c, name).0.active);
  }

  lemma {:induction false} StopKeeps(c: Ctl, name: string)
    requires Good(c)
    ensures Good(StopSessionIn(c, name).0)
  {
    T.DoAdmitted(c.active, T.OpStop(name, BaseMode(c)));
    OnlyActiveMoved(c, StopSessionIn(c, name).0.active);
  }

  lemma {:induction false} DisconnectKeeps(c: Ctl)
    requires Good(c)
    ensures Good(DisconnectIn(c).0)
  {
    T.DoAdmitted(c.active, T.OpDisconnect);
    OnlyActiveMoved(c, T.Disconnect(c.active).0);
  }

  // ---------------------------------------------------------------- peer slots

  lemma {:induction false} PeersValid(c: C.Config, tun: Option<C.Tun>, peer: Option<C.Peer>)
    requires C.Valid(c) && K.WellFormed(c) && c.peerSecret.Some?
    requires K.TunFits(tun) && K.PeerFits(peer)
    requires tun == c.tun || (!C.ForServer(tun)
                              && (tun.Some? ==> Decode(tun.value.exitVia.value).Some? && tun.value.address.None?))
    requires peer.Some? ==> C.AllowOk(peer.value)
    ensures C.Valid(c.(tun := tun, peer := peer)) && K.WellFormed(c.(tun := tun, peer := peer))
  {
  }

  lemma {:induction false} PeersReplaced(c: Ctl, tun: Option<C.Tun>, peer: Option<C.Peer>, a: T.Active)
    requires Good(c) && c.cfg.peerSecret.Some? && K.TunFits(tun) && K.PeerFits(peer)
    requires tun == c.cfg.tun || (!C.ForServer(tun)
                                  && (tun.Some? ==> Decode(tun.value.exitVia.value).Some? && tun.value.address.None?))
    requires peer.Some? ==> C.AllowOk(peer.value)
    requires C.ForServer(tun) == C.ForServer(c.cfg.tun)
    requires T.Admitted(a) && a.target == c.active.target && SameSlots(a.peers, c.cfg.(tun := tun, peer := peer))
    ensures Good(c.(cfg := c.cfg.(tun := tun, peer := peer), active := a))
  {
    PeersValid(c.cfg, tun, peer);
    var c' := c.(cfg := c.cfg.(tun := tun, peer := peer), active := a);
    assert Mirrors(c') && Pointed(c') && Rooted(c');
  }

  /** What the slots of a config are, one by one. */
  lemma {:induction false} SlotsAre(tun: Option<C.Tun>, peer: Option<C.Peer>, x: T.SlotSpec)
    requires PeerSlots(tun, peer).Some?
    ensures x in PeerSlots(tun, peer).value <==>
            || (C.ForPeer(tun) && x == ConsumerSlot(tun.value))
            || (peer.Some? && peer.value.exit && x == ExitSlot(peer.value))
            || (peer.Some? && peer.value.segment.Some? && x == SegmentSlot(peer.value))
  {
  }

  /** Every declared slot is attached. */
  lemma {:induction false} DeclaredAreAttached(c: Ctl)
    requires Mirrors(c)
    ensures C.ForPeer(c.cfg.tun) ==> ConsumerSlot(c.cfg.tun.value) in c.active.peers
    ensures c.cfg.peer.Some? && c.cfg.peer.value.exit ==> ExitSlot(c.cfg.peer.value) in c.active.peers
    ensures c.cfg.peer.Some? && c.cfg.peer.value.segment.Some? ==> SegmentSlot(c.cfg.peer.value) in c.active.peers
  {
    var tun, peer := c.cfg.tun, c.cfg.peer;
    if C.ForPeer(tun) {
      SlotsAre(tun, peer, ConsumerSlot(tun.value));
    }
    if peer.Some? && peer.value.exit {
      SlotsAre(tun, peer, ExitSlot(peer.value));
    }
    if peer.Some? && peer.value.segment.Some? {
      SlotsAre(tun, peer, SegmentSlot(peer.value));
    }
  }

  /** Without a clash, the new slot's place in the config is free. */
  lemma {:induction false} NoClashMeansFree(c: Ctl, spec: T.SlotSpec, boot: T.RunMode)
    requires Mirrors(c) && T.AttachPeer(c.active, spec, boot).1
    ensures spec.Consumer? ==> !C.ForPeer(c.cfg.tun)
    ensures spec.Provider? && spec.bits == PROVIDES_EXIT ==> c.cfg.peer.None? || !c.cfg.peer.value.exit
    ensures spec.Provider? && spec.bits == PROVIDES_SEGMENT ==> c.cfg.peer.None? || c.cfg.peer.value.segment.None?
  {
    DeclaredAreAttached(c);
  }

  lemma {:induction false} ConsumerSlotsMatch(c: Ctl, t: C.Tun)
    requires Good(c) && c.cfg.tun.None? && t.exitVia.Some?
    ensures SameSlots(c.active.peers + [ConsumerSlot(t)], c.cfg.(tun := Some(t)))
  {
    var peers := c.active.peers + [ConsumerSlot(t)];
    var cfg := c.cfg.(tun := Some(t));
    forall x
      ensures x in peers <==> x in PeerSlots(cfg.tun, cfg.peer).value
    {
      SlotsAre(c.cfg.tun, c.cfg.peer, x);
      SlotsAre(cfg.tun, cfg.peer, x);
    }
  }

  lemma {:induction false} AttachConsumerKeeps(c: Ctl, m: Mutation)
    requires Good(c) && m.AttachPeer? && m.peerId != "" && c.hasPeerSecret && AttachFields(m)
    requires Lexable(m.peerId) && Lexable(m.dev)
    ensures Good(AttachConsumerIn(c, m).0)
  {
    if AttachConsumerIn(c, m).1 {
      var t := ConsumerRecord(m);
      NoClashMeansFree(c, ConsumerSlot(t), BootMode(c));
      DeviceFallback(c);
      assert c.cfg.tun.None?;
      T.DoAdmitted(c.active, T.OpAttach(ConsumerSlot(t), BootMode(c)));
      ConsumerSlotsMatch(c, t);
      PeersReplaced(c, Some(t), c.cfg.peer, T.AttachPeer(c.active, ConsumerSlot(t), BootMode(c)).0);
    }
  }

  lemma {:induction false} ExitSlotsMatch(c: Ctl, p: C.Peer, r: C.Peer)
    requires Good(c) && c.cfg.peer == Some(p) && !p.exit && r.exit && r.segment.None? && r.allow == p.allow
             && ProviderOk(r)
    ensures SameSlots(c.active.peers + [ExitSlot(r)], c.cfg.(peer := Some(MergePeer(Some(p), r))))
  {
    var q := MergePeer(Some(p), r);
    var cfg := c.cfg.(peer := Some(q));
    assert ExitSlot(q) == ExitSlot(r);
    forall x
      ensures x in c.active.peers + [ExitSlot(r)] <==> x in PeerSlots(cfg.tun, cfg.peer).value
    {
      SlotsAre(c.cfg.tun, c.cfg.peer, x);
      SlotsAre(cfg.tun, cfg.peer, x);
    }
  }

  lemma {:induction false} SegmentSlotsMatch(c: Ctl, p: C.Peer, r: C.Peer)
    requires Good(c) && c.cfg.peer == Some(p) && p.segment.None? && !r.exit && r.segment.Some? && r.allow == p.allow
             && ProviderOk(r)
    ensures SameSlots(c.active.peers + [SegmentSlot(r)], c.cfg.(peer := Some(MergePeer(Some(p), r))))
  {
    var q := MergePeer(Some(p), r);
    var cfg := c.cfg.(peer := Some(q));
    assert SegmentSlot(q) == SegmentSlot(r);
    forall x
      ensures x in c.active.peers + [SegmentSlot(r)] <==> x in PeerSlots(cfg.tun, cfg.peer).value
    {
      SlotsAre(c.cfg.tun, c.cfg.peer, x);
      SlotsAre(cfg.tun, cfg.peer, x);
    }
  }

  lemma {:induction false} AttachProviderKeeps(c: Ctl, m: Mutation)
    requires Good(c) && m.AttachPeer? && m.peerId == "" && c.hasPeerSecret && AttachFields(m) && Lexable(m.iface)
    ensures Good(AttachProviderIn(c, m).0)
  {
    if AttachProviderIn(c, m).1 {
      var r := ProviderRecord(c, m);
      assert c.cfg.peer.Some?;
      var p := c.cfg.peer.value;
      var spec := if r.exit then ExitSlot(r) else SegmentSlot(r);
      NoClashMeansFree(c, spec, BootMode(c));
      T.DoAdmitted(c.active, T.OpAttach(spec, BootMode(c)));
      if r.exit {
        ExitSlotsMatch(c, p, r);
      } else {
        SegmentSlotsMatch(c, p, r);
      }
      PeersReplaced(c, c.cfg.tun, Some(MergePeer(Some(p), r)), T.AttachPeer(c.active, spec, BootMode(c)).0);
    }
  }

  lemma {:induction false} AttachKeeps(c: Ctl, m: Mutation)
    requires Good(c) && m.AttachPeer?
    ensures Good(AttachPeerIn(c, m).0)
  {
    if AttachPeerIn(c, m).1 {
      NoControlIsLexable(m.peerId);
      NoControlIsLexable(m.dev);
      NoControlIsLexable(m.iface);
      if m.peerId != "" {
        AttachConsumerKeeps(c, m);
      } else {
        AttachProviderKeeps(c, m);
      }
    }
  }

  /** A detach that finds its slot finds it in the config. */
  lemma {:induction false} DetachedWasThere(slots: seq<T.SlotSpec>, peerId: string, want: byte) returns (x: T.SlotSpec)
    requires |T.Without(slots, peerId, want)| != |slots|
    ensures x in slots && T.NamedBy(x, peerId, want)
    decreases |slots|
  {
    var last := slots[|slots| - 1];
    if T.NamedBy(last, peerId, want) {
      x := last;
    } else {
      x := DetachedWasThere(slots[..|slots| - 1], peerId, want);
    }
  }

  lemma {:induction false} ConsumerDetached(c: Ctl, peerId: string, want: byte)
    requires Good(c) && peerId != "" && T.DetachPeer(c.active, peerId, want).1
    ensures c.cfg.peerSecret.Some? && C.ForPeer(c.cfg.tun)
    ensures SameSlots(T.Without(c.active.peers, peerId, want), c.cfg.(tun := None))
  {
    var x0 := DetachedWasThere(c.active.peers, peerId, want);
    SlotsAre(c.cfg.tun, c.cfg.peer, x0);
    T.WithoutUnique(c.active.peers, peerId, want);
    forall x
      ensures x in T.Without(c.active.peers, peerId, want) <==> x in PeerSlots(None, c.cfg.peer).value
    {
      SlotsAre(c.cfg.tun, c.cfg.peer, x);
      SlotsAre(None, c.cfg.peer, x);
    }
  }

  /** The record behind a provider that is attached. */
  lemma {:induction false} ProviderWasThere(c: Ctl, want: byte)
    requires Good(c) && T.DetachPeer(c.active, "", want).1
    ensures c.cfg.peerSecret.Some? && c.cfg.peer.Some?
    ensures want == PROVIDES_EXIT ==> c.cfg.peer.value.exit
    ensures want == PROVIDES_SEGMENT ==> c.cfg.peer.value.segment.Some?
  {
    var x0 := DetachedWasThere(c.active.peers, "", want);
    SlotsAre(c.cfg.tun, c.cfg.peer, x0);
  }

  lemma {:induction false} ClearedStays(p: C.Peer, want: byte)
    requires ProviderOk(p) && C.Provides(p)
    ensures ClearPeer(Some(p), want).Some? && ProviderOk(ClearPeer(Some(p), want).value)
  {
  }

  lemma {:induction false} ProviderDetached(c: Ctl, want: byte)
    requires Good(c) && T.DetachPeer(c.active, "", want).1 && (want == PROVIDES_EXIT || want == PROVIDES_SEGMENT)
    ensures c.cfg.peerSecret.Some? && c.cfg.peer.Some?
    ensures var peer := ClearPeer(c.cfg.peer, want);
            && peer.Some? && ProviderOk(peer.value)
            && SameSlots(T.Without(c.active.peers, "", want), c.cfg.(peer := peer))
  {
    ProviderWasThere(c, want);
    ClearedStays(c.cfg.peer.value, want);
    var peer := ClearPeer(c.cfg.peer, want);
    T.WithoutUnique(c.active.peers, "", want);
    forall x
      ensures x in T.Without(c.active.peers, "", want) <==> x in PeerSlots(c.cfg.tun, peer).value
    {
      ProviderSlotGone(c.cfg, want, x);
    }
  }

  lemma {:induction false} ProviderSlotGone(cfg: C.Config, want: byte, x: T.SlotSpec)
    requires cfg.peer.Some? && ProviderOk(cfg.peer.value) && (want == PROVIDES_EXIT || want == PROVIDES_SEGMENT)
    requires ClearPeer(cfg.peer, want).Some? && ProviderOk(ClearPeer(cfg.peer, want).value) && K.TunFits(cfg.tun)
    ensures x in PeerSlots(cfg.tun, ClearPeer(cfg.peer, want)).value <==>
            x in PeerSlots(cfg.tun, cfg.peer).value && !T.NamedBy(x, "", want)
  {
    SlotsAre(cfg.tun, cfg.peer, x);
    SlotsAre(cfg.tun, ClearPeer(cfg.peer, want), x);
  }

  lemma {:induction false} DetachKeeps(c: Ctl, peerId: string, want: byte)
    requires Good(c)
    ensures Good(DetachPeerIn(c, peerId, want).0)
  {
    if DetachPeerIn(c, peerId, want).1 {
      var a := T.DetachPeer(c.active, peerId, want).0;
      T.DoAdmitted(c.active, T.OpDetach(peerId, want));
      if peerId == "" {
        ProviderDetached(c, want);
        PeersReplaced(c, c.cfg.tun, ClearPeer(c.cfg.peer, want), a);
      } else {
        ConsumerDetached(c, peerId, want);
        PeersReplaced(c, None, c.cfg.peer, a);
      }
    }
  }

  // ---------------------------------------------------------------- every run

  /** What a sequence of mutations must meet: the wire's widths, and the one rule the
      dispatcher leaves unchecked. */
  predicate Fair(c: Ctl, m: Mutation) {
    OnTheWire(m) && ApartFromPeer(c.cfg, m)
  }

  lemma {:induction false} ApplyKeeps(c: Ctl, m: Mutation, dht: bool)
    requires Good(c) && Fair(c, m)
    ensures Good(Apply(c, m, dht).0)
  {
    match m
    case SelectServer(name) =>
      assert Apply(c, m, dht) == SelectServerIn(c, name, dht);
      SelectKeeps(c, name, dht);
    case SetForwardOptions(_, _, _, _, _) =>
      assert Apply(c, m, dht) == SetForwardOptionsIn(c, m);
      SetOptionsKeeps(c, m);
    case SpawnPppoe(name) =>
      assert Apply(c, m, dht) == SpawnPppoeIn(c, name);
      SpawnKeeps(c, name);
    case StopSession(name) =>
      assert Apply(c, m, dht) == StopSessionIn(c, name);
      StopKeeps(c, name);
    case AddServer(_, _, _, _) =>
      assert Apply(c, m, dht) == AddServerIn(c, m);
      AddServerKeeps(c, m);
    case RemoveServer(name) =>
      assert Apply(c, m, dht) == RemoveServerIn(c, name);
      RemoveServerKeeps(c, name);
    case ConnectTo(name) =>
      assert Apply(c, m, dht) == ConnectIn(c, name, dht);
      ConnectKeeps(c, name, dht);
    case Disconnect =>
      assert Apply(c, m, dht) == DisconnectIn(c);
      DisconnectKeeps(c);
    case AddForward(_, _, _, _, _, _) =>
      assert Apply(c, m, dht) == AddForwardIn(c, m);
      AddForwardKeeps(c, m);
    case RemoveForward(proto, port) =>
      assert Apply(c, m, dht) == RemoveForwardIn(c, (proto, port));
      RemoveForwardKeeps(c, (proto, port));
    case AttachPeer(_, _, _, _, _, _) =>
      assert Apply(c, m, dht) == AttachPeerIn(c, m);
      AttachKeeps(c, m);
    case DetachPeer(peerId, want) =>
      assert Apply(c, m, dht) == DetachPeerIn(c, peerId, want);
      DetachKeeps(c, peerId, want);
  }

  /** What follows the save keeps everything too, */
  lemma {:induction false} FollowKeeps(c: Ctl, a: After)
    requires Good(c)
    ensures Good(Follow(c, a))
  {
    T.ForwardsAdmitted(c.active);
    OnlyActiveMoved(c, Follow(c, a).active);
  }

  /** and so does an exchange, whether or not it gets that far. */
  lemma {:induction false} AnswerKeeps(c: Ctl, r: Request, dht: bool)
    requires Good(c) && Fair(c, r.m)
    ensures Good(Answer(c, r, dht).0)
  {
    ApplyKeeps(c, r.m, dht);
    var (c', ok) := Apply(c, r.m, dht);
    FollowKeeps(c', AfterOf(c', r.m));
  }

  ghost predicate FairRun(c: Ctl, rs: seq<Request>, dht: bool)
    decreases |rs|
  {
    rs == [] || (Fair(c, rs[0].m) && FairRun(Answer(c, rs[0], dht).0, rs[1..], dht))
  }

  lemma {:induction false} RunKeeps(c: Ctl, rs: seq<Request>, dht: bool)
    requires Good(c) && FairRun(c, rs, dht)
    ensures Good(AnswerAll(c, rs, dht))
    decreases |rs|
  {
    if rs != [] {
      AnswerKeeps(c, rs[0], dht);
      RunKeeps(Answer(c, rs[0], dht).0, rs[1..], dht);
    }
  }

  lemma {:induction false} BootIsPointed(cfg: C.Config)
    requires C.Valid(cfg) && Boot(cfg).Some?
    ensures Pointed(Boot(cfg).value)
  {
    if cfg.active.Some? {
      FoundIsNamed(cfg.servers, cfg.active.value);
    } else {
      assert cfg.servers[0].name == Boot(cfg).value.active.target.name;
    }
  }

  lemma {:induction false} BootMirrors(cfg: C.Config)
    requires Boot(cfg).Some?
    ensures Mirrors(Boot(cfg).value) && T.Admitted(Boot(cfg).value.active) && Boot(cfg).value.cfg == cfg
  {
  }

  lemma {:induction false} BootIsGood(cfg: C.Config)
    requires C.Valid(cfg) && K.WellFormed(cfg) && Boot(cfg).Some?
    ensures Good(Boot(cfg).value)
  {
    BootMirrors(cfg);
    BootIsPointed(cfg);
  }

  /** Main result: from any valid config that boots, through every sequence of admin exchanges,
      given up or not, the config still passes boot validation and still parses back from its
      own file; the live forwards, servers and peer slots are the declared ones; a set `active`
      names the running target; and nothing contends. */
  lemma {:induction false} EveryRunStaysGood(h: Derivation, cfg: C.Config, rs: seq<Request>, dht: bool)
    requires C.Valid(cfg) && K.WellFormed(cfg) && Boot(cfg).Some? && FairRun(Boot(cfg).value, rs, dht)
    ensures var c := AnswerAll(Boot(cfg).value, rs, dht);
            && C.Valid(c.cfg) && K.Parse(h, K.Serialize(h, c.cfg)) == Some(c.cfg)
            && c.forwards == ForwardMap(c.cfg.forwards)
            && c.servers == Targets(c.cfg.servers)
            && SameSlots(c.active.peers, c.cfg)
            && (c.cfg.active.Some? ==> c.cfg.active.value == c.active.target.name)
            && T.Admitted(c.active)
  {
    BootIsGood(cfg);
    RunKeeps(Boot(cfg).value, rs, dht);
    K.ParseOfSerialize(h, AnswerAll(Boot(cfg).value, rs, dht).cfg);
  }

  // ---------------------------------------------------------------- declared forwards are served

  /** The client does not sit idle beside declared forwards. */
  predicate Served(c: Ctl) {
    c.active.mode.Idle? ==> c.forwards == map[]
  }

  /** An add accepted by an idle client and given up before its save came back. */
  predicate Abandons(c: Ctl, r: Request, dht: bool) {
    r.m.AddForward? && Apply(c, r.m, dht).1 && !r.inTime && c.active.mode.Idle?
  }

  /** Main result: an exchange leaves the client idle beside declared forwards exactly when it
      abandons an add, */
  lemma {:induction false} ServedIff(c: Ctl, r: Request, dht: bool)
    requires Served(c)
    ensures Served(Answer(c, r, dht).0) <==> !Abandons(c, r, dht)
  {
    if r.m.AddForward? {
      assert Apply(c, r.m, dht) == AddForwardIn(c, r.m);
      assert AddForwardIn(c, r.m).1 ==> (r.m.proto, r.m.port) in AddForwardIn(c, r.m).0.forwards;
    } else {
      ApplyServes(c, r.m, dht);
      var (c', ok) := Apply(c, r.m, dht);
      assert Served(Follow(c', AfterOf(c', r.m)));
    }
  }

  /** No other mutation leaves the client idle beside declared forwards. */
  lemma {:induction false} ApplyServes(c: Ctl, m: Mutation, dht: bool)
    requires Served(c) && !m.AddForward?
    ensures Served(Apply(c, m, dht).0)
  {
    match m
    case SetForwardOptions(_, _, _, _, _) => assert Apply(c, m, dht) == SetForwardOptionsIn(c, m);
    case RemoveForward(proto, port) => assert Apply(c, m, dht) == RemoveForwardIn(c, (proto, port));
    case AttachPeer(_, _, _, _, _, _) => assert Apply(c, m, dht) == AttachPeerIn(c, m);
    case _ =>
  }

  ghost predicate AbandonsNone(c: Ctl, rs: seq<Request>, dht: bool)
    decreases |rs|
  {
    rs == [] || (!Abandons(c, rs[0], dht) && AbandonsNone(Answer(c, rs[0], dht).0, rs[1..], dht))
  }

  lemma {:induction false} RunServes(c: Ctl, rs: seq<Request>, dht: bool)
    requires Served(c) && AbandonsNone(c, rs, dht)
    ensures Served(AnswerAll(c, rs, dht))
    decreases |rs|
  {
    if rs != [] {
      ServedIff(c, rs[0], dht);
      RunServes(Answer(c, rs[0], dht).0, rs[1..], dht);
    }
  }

  /** so from boot every sequence of exchanges that abandons none keeps declared forwards served. */
  lemma {:induction false} EveryRunServes(cfg: C.Config, rs: seq<Request>, dht: bool)
    requires Boot(cfg).Some? && AbandonsNone(Boot(cfg).value, rs, dht)
    ensures Served(AnswerAll(Boot(cfg).value, rs, dht))
  {
    RunServes(Boot(cfg).value, rs, dht);
  }

  // ---------------------------------------------------------------- the next boot

  /** Slots that do not contend, told pair by pair. */
  ghost predicate PairwiseApart(slots: seq<T.SlotSpec>) {
    && (forall i :: 0 <= i < |slots| ==> T.Distinct(T.SlotClaims(slots[i])))
    && (forall i, j :: 0 <= i < j < |slots| ==> T.Admits(T.SlotClaims(slots[i]), T.SlotClaims(slots[j])))
  }

  lemma {:induction false} ClaimsHeld(slots: seq<T.SlotSpec>, claim: T.Claim)
    ensures T.Holds(T.PeerClaims(slots), claim)
            <==> exists i :: 0 <= i < |slots| && T.Holds(T.SlotClaims(slots[i]), claim)
    decreases |slots|
  {
    if slots != [] {
      var front, last := slots[..|slots| - 1], slots[|slots| - 1];
      ClaimsHeld(front, claim);
      T.HoldsSplit(T.PeerClaims(front), T.SlotClaims(last));
      if exists i :: 0 <= i < |front| && T.Holds(T.SlotClaims(front[i]), claim) {
        var i :| 0 <= i < |front| && T.Holds(T.SlotClaims(front[i]), claim);
        assert slots[i] == front[i];
      }
      if exists i :: 0 <= i < |slots| && T.Holds(T.SlotClaims(slots[i]), claim) {
        var i :| 0 <= i < |slots| && T.Holds(T.SlotClaims(slots[i]), claim);
        assert i < |front| ==> front[i] == slots[i];
      }
    }
  }

  lemma {:induction false} JoinedDistinct(a: T.Claims, b: T.Claims)
    ensures T.Distinct(a + b) <==> T.Distinct(a) && T.Distinct(b) && T.Admits(a, b)
  {
    var all := a + b;
    T.AdmitsEither(a, b);
    if T.Distinct(all) {
      assert forall i :: 0 <= i < |a| ==> all[i] == a[i];
      assert forall j :: 0 <= j < |b| ==> all[|a| + j] == b[j];
    }
  }

  lemma {:induction false} PairwiseGrows(front: seq<T.SlotSpec>, last: T.SlotSpec)
    ensures PairwiseApart(front + [last]) <==>
            && PairwiseApart(front) && T.Distinct(T.SlotClaims(last))
            && forall i :: 0 <= i < |front| ==> T.Admits(T.SlotClaims(front[i]), T.SlotClaims(last))
  {
    var slots := front + [last];
    assert slots[|front|] == last;
    assert forall i :: 0 <= i < |front| ==> slots[i] == front[i];
  }

  lemma {:induction false} ApartFromAll(front: seq<T.SlotSpec>, last: T.SlotSpec)
    ensures T.Admits(T.PeerClaims(front), T.SlotClaims(last)) <==>
            forall i :: 0 <= i < |front| ==> T.Admits(T.SlotClaims(front[i]), T.SlotClaims(last))
  {
    if T.Admits(T.PeerClaims(front), T.SlotClaims(last)) {
      forall i | 0 <= i < |front|
        ensures T.Admits(T.SlotClaims(front[i]), T.SlotClaims(last))
      {
        LastIsApart(front, last, i);
      }
    } else {
      var j :| 0 <= j < |T.SlotClaims(last)| && T.Holds(T.PeerClaims(front), T.SlotClaims(last)[j].0);
      ClaimsHeld(front, T.SlotClaims(last)[j].0);
    }
  }

  lemma {:induction false} DistinctIsPairwise(slots: seq<T.SlotSpec>)
    ensures T.Distinct(T.PeerClaims(slots)) <==> PairwiseApart(slots)
    decreases |slots|
  {
    if slots != [] {
      var front, last := slots[..|slots| - 1], slots[|slots| - 1];
      assert slots == front + [last];
      DistinctIsPairwise(front);
      JoinedDistinct(T.PeerClaims(front), T.SlotClaims(last));
      PairwiseGrows(front, last);
      ApartFromAll(front, last);
    }
  }

  lemma {:induction false} LastIsApart(front: seq<T.SlotSpec>, last: T.SlotSpec, i: nat)
    requires i < |front| && T.Admits(T.PeerClaims(front), T.SlotClaims(last))
    ensures T.Admits(T.SlotClaims(front[i]), T.SlotClaims(last))
  {
    forall j | 0 <= j < |T.SlotClaims(last)|
      ensures !T.Holds(T.SlotClaims(front[i]), T.SlotClaims(last)[j].0)
    {
      ClaimsHeld(front, T.SlotClaims(last)[j].0);
    }
  }

  /** Contention does not depend on the order slots were attached in. */
  lemma {:induction false} OrderDoesNotMatter(peers: seq<T.SlotSpec>, slots: seq<T.SlotSpec>)
    requires T.Distinct(T.PeerClaims(peers)) && T.UniqueSlots(slots)
    requires forall x :: x in slots ==> x in peers
    ensures T.Distinct(T.PeerClaims(slots))
  {
    DistinctIsPairwise(peers);
    DistinctIsPairwise(slots);
    forall i | 0 <= i < |slots|
      ensures T.Distinct(T.SlotClaims(slots[i]))
    {
      assert slots[i] in peers;
    }
    forall i, j | 0 <= i < j < |slots|
      ensures T.Admits(T.SlotClaims(slots[i]), T.SlotClaims(slots[j]))
    {
      assert slots[i] in peers && slots[j] in peers;
      var m :| 0 <= m < |peers| && peers[m] == slots[i];
      var n :| 0 <= n < |peers| && peers[n] == slots[j];
      assert m != n by {
        assert !T.SameIdentity(slots[i], slots[j]);
      }
      T.AdmitsEither(T.SlotClaims(slots[i]), T.SlotClaims(slots[j]));
      T.AdmitsEither(T.SlotClaims(slots[j]), T.SlotClaims(slots[i]));
    }
  }

  lemma {:induction false} DeclaredAreUnique(tun: Option<C.Tun>, peer: Option<C.Peer>)
    requires PeerSlots(tun, peer).Some?
    ensures T.UniqueSlots(PeerSlots(tun, peer).value) && T.OneBit(PeerSlots(tun, peer).value)
  {
  }

  lemma {:induction false} DialsSomething(c: Ctl)
    requires Good(c)
    ensures ActiveServer(c.cfg).Some?
  {
    if c.cfg.active.Some? {
      FoundIsNamed(c.cfg.servers, c.cfg.active.value);
    }
  }

  /** Main result: at any moment of a run, the saved config boots again exactly when the body it
      would boot claims nothing the slots hold; admission alone decides it. */
  lemma {:induction false} NextBootIff(c: Ctl)
    requires Good(c)
    ensures Boot(c.cfg).Some? <==>
            T.Admits(T.PeerClaims(PeerSlots(c.cfg.tun, c.cfg.peer).value), T.BodyClaims(BootMode(c)))
  {
    var slots := PeerSlots(c.cfg.tun, c.cfg.peer).value;
    DeclaredAreUnique(c.cfg.tun, c.cfg.peer);
    OrderDoesNotMatter(c.active.peers, slots);
    DialsSomething(c);
  }
}
