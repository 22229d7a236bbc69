/** What each admin mutation asks and does, field by field, told from the message and the state
    before it (`src/clientctl.rs`). */
module ControlEffects {
  import opened Base
  import opened Secret
  import C = Config
  import K = ConfigCodec
  import T = ActiveTarget
  import opened Control
  import opened ControlSafety

  // ---------------------------------------------------------------- what moves and what stays

  /** The running part is restarted: its cancel holds a permit. */
  predicate Fired(a: T.Active, a': T.Active) {
    a'.cancel == a.cancel && a'.permits == a.permits + {a.cancel}
  }

  /** Nothing but the live and the declared forwards moved. */
  predicate OnlyForwards(c: Ctl, c': Ctl) {
    c' == c.(forwards := c'.forwards, cfg := c.cfg.(forwards := c'.cfg.forwards))
  }

  predicate OnlyServers(c: Ctl, c': Ctl) {
    c' == c.(servers := c'.servers, cfg := c.cfg.(servers := c'.cfg.servers))
  }

  /** Nothing but the running part and, as given, the config moved. */
  predicate OnlyActive(c: Ctl, c': Ctl, cfg: C.Config) {
    c' == c.(active := c'.active, cfg := cfg)
  }

  /** Restarted with this target and body, the slots and their claims left alone. */
  predicate Runs(c: Ctl, c': Ctl, target: T.Target, mode: T.RunMode) {
    && Fired(c.active, c'.active) && c'.active.target == target && c'.active.mode == mode
    && c'.active.peers == c.active.peers && c'.active.claims == c.active.claims
  }

  /** Restarted with these slots, whose claims are cached, under the same body and target. */
  predicate Hosts(c: Ctl, c': Ctl, peers: seq<T.SlotSpec>) {
    && Fired(c.active, c'.active) && c'.active.target == c.active.target && c'.active.mode == c.active.mode
    && c'.active.peers == peers && c'.active.claims == T.PeerClaims(peers)
  }

  /** One element is taken out of a list. */
  predicate OneLess<X(==)>(xs: seq<X>, xs': seq<X>, i: nat) {
    i < |xs| && xs' == xs[..i] + xs[i + 1..]
  }

  /** What the lists are known to be in every run. */
  predicate Tidy(c: Ctl) {
    && C.DistinctForwards(c.cfg.forwards) && c.forwards == ForwardMap(c.cfg.forwards)
    && C.DistinctNames(c.cfg.servers) && c.servers == Targets(c.cfg.servers)
  }

  lemma {:induction false} GoodIsTidy(c: Ctl)
    requires Good(c)
    ensures Tidy(c) && T.Admitted(c.active)
  {
  }

  // ---------------------------------------------------------------- forwards

  function IdleSecs(secs: nat): Option<nat> {
    if secs > 0 then Some(secs) else None
  }

  /** The options of one forward and nothing else, live and declared. */
  ghost predicate OptionsSet(c: Ctl, m: Mutation, c': Ctl)
    requires m.SetForwardOptions?
  {
    var k, fs, fs' := (m.proto, m.port), c.cfg.forwards, c'.cfg.forwards;
    && OnlyForwards(c, c') && k in c.forwards && c'.forwards.Keys == c.forwards.Keys && |fs'| == |fs|
    && (forall j :: j in c.forwards ==>
          c'.forwards[j] ==
          if j == k then Fwd(c.forwards[k].target, m.proxy, IdleSecs(m.idleSecs), m.enabled) else c.forwards[j])
    && (forall i :: 0 <= i < |fs| ==>
          fs'[i] ==
          if (fs[i].proto, fs[i].port) == k
          then C.Forward(m.proto, m.port, fs[i].target, m.proxy, IdleSecs(m.idleSecs), m.enabled) else fs[i])
  }

  lemma {:induction false} OneIndex(fs: seq<C.Forward>, k: ForwardKey)
    requires C.DistinctForwards(fs)
    ensures var i := IndexOf(fs, k);
            forall j :: 0 <= j < |fs| ==> ((fs[j].proto, fs[j].port) == k <==> i == Some(j))
  {
    var i := IndexOf(fs, k);
    forall j | 0 <= j < |fs|
      ensures (fs[j].proto, fs[j].port) == k <==> i == Some(j)
    {
      assert KeyOf(fs[j]) == (fs[j].proto, fs[j].port);
    }
  }

  /** An option edit is taken exactly for a forward that is there, with no proxy header on UDP. */
  lemma {:induction false} SetOptionsDoes(c: Ctl, m: Mutation)
    requires Tidy(c) && m.SetForwardOptions?
    ensures var (c', ok) := SetForwardOptionsIn(c, m);
            && (ok <==> (m.proto, m.port) in c.forwards && !(m.proxy && m.proto == Udp))
            && (ok ==> OptionsSet(c, m, c'))
  {
    OneIndex(c.cfg.forwards, (m.proto, m.port));
  }

  /** No character is a C0 or C1 control or a delete. */
  predicate Clean(s: string) {
    forall i :: 0 <= i < |s| ==> s[i] as int >= 32 && !(127 <= s[i] as int <= 159)
  }

  lemma {:induction false} CleanIff(s: string)
    ensures Clean(s) <==> !HasControl(s)
  {
    if HasControl(s) {
      var i :| 0 <= i < |s| && IsControl(s[i]);
    }
  }

  /** A name and a port, the last colon between them. */
  ghost predicate HostPort(s: string) {
    exists i :: 0 < i < |s| && s[i] == ':' && (forall j :: i < j < |s| ==> s[j] != ':')
                && var port := K.Unsigned(s[i + 1..], 65536); port.Some? && port.value > 0
  }

  lemma {:induction false} LastColonIs(s: string)
    ensures LastColon(s).None? ==> forall j :: 0 <= j < |s| ==> s[j] != ':'
    ensures LastColon(s).Some? ==>
              var i := LastColon(s).value; i < |s| && s[i] == ':' && forall j :: i < j < |s| ==> s[j] != ':'
  {
    if s != [] && s[|s| - 1] != ':' {
      LastColonIs(s[..|s| - 1]);
    }
  }

  lemma {:induction false} ValidHostPortIff(s: string)
    ensures ValidHostPort(s) <==> HostPort(s)
  {
    LastColonIs(s);
  }

  /** The target a forward is given when the message names none. */
  function TargetText(m: Mutation): string
    requires m.AddForward?
  {
    if m.target == "" then "127.0.0.1:" + K.Decimal(m.port) else m.target
  }

  ghost predicate TakesForward(c: Ctl, m: Mutation)
    requires m.AddForward?
  {
    && (m.proto, m.port) !in c.forwards && !c.fallback.Device? && !(m.proxy && m.proto == Udp)
    && HostPort(TargetText(m)) && Clean(TargetText(m))
  }

  /** One more forward, live and at the end of the declared ones. */
  ghost predicate ForwardAdded(c: Ctl, m: Mutation, c': Ctl)
    requires m.AddForward?
  {
    var k, target, idle := (m.proto, m.port), TargetText(m), IdleSecs(m.idleSecs);
    && OnlyForwards(c, c') && k !in c.forwards && c'.forwards.Keys == c.forwards.Keys + {k}
    && c'.forwards[k] == Fwd(target, m.proxy, idle, m.enabled)
    && (forall j :: j in c.forwards ==> c'.forwards[j] == c.forwards[j])
    && c'.cfg.forwards == c.cfg.forwards + [C.Forward(m.proto, m.port, target, m.proxy, idle, m.enabled)]
  }

  lemma {:induction false} TakesForwardIff(c: Ctl, m: Mutation, target: string)
    requires m.AddForward? && target == TargetText(m)
    ensures TakesForward(c, m) <==>
            !((m.proxy && m.proto == Udp) || !ValidHostPort(target) || HasControl(target))
            && !(c.fallback.Device? || (m.proto, m.port) in c.forwards)
  {
    ValidHostPortIff(target);
    CleanIff(target);
  }

  lemma {:induction false} AddForwardDoes(c: Ctl, m: Mutation)
    requires m.AddForward?
    ensures var (c', ok) := AddForwardIn(c, m);
            (ok <==> TakesForward(c, m)) && (ok ==> ForwardAdded(c, m, c'))
  {
    var target := if m.target == "" then K.DefaultTarget(m.port) else m.target;
    assert target == TargetText(m);
    TakesForwardIff(c, m, target);
  }

  /** One forward less, live and declared, the others in their places. */
  ghost predicate ForwardRemoved(c: Ctl, k: ForwardKey, c': Ctl) {
    && OnlyForwards(c, c') && k in c.forwards && c'.forwards.Keys == c.forwards.Keys - {k}
    && (forall j :: j in c'.forwards ==> c'.forwards[j] == c.forwards[j])
    && exists i: nat :: i < |c.cfg.forwards| && (c.cfg.forwards[i].proto, c.cfg.forwards[i].port) == k
                        && OneLess(c.cfg.forwards, c'.cfg.forwards, i)
  }

  lemma {:induction false} DropForwardNone(fs: seq<C.Forward>, k: ForwardKey)
    requires forall i :: 0 <= i < |fs| ==> KeyOf(fs[i]) != k
    ensures DropForward(fs, k) == fs
  {
    if fs != [] {
      DropForwardNone(fs[..|fs| - 1], k);
    }
  }

  lemma {:induction false} DropForwardOne(fs: seq<C.Forward>, k: ForwardKey, i: nat)
    requires i < |fs| && KeyOf(fs[i]) == k && C.DistinctForwards(fs)
    ensures OneLess(fs, DropForward(fs, k), i)
  {
    var n := |fs| - 1;
    if i == n {
      DropForwardNone(fs[..n], k);
    } else {
      DropForwardOne(fs[..n], k, i);
      assert fs[..n][..i] + fs[..n][i + 1..] + [fs[n]] == fs[..i] + fs[i + 1..];
    }
  }

  /** Every declared forward is live with its own options, */
  lemma {:induction false} DeclaredIsLive(fs: seq<C.Forward>, i: nat)
    requires C.DistinctForwards(fs) && i < |fs|
    ensures var f := fs[i];
            && (f.proto, f.port) in ForwardMap(fs)
            && ForwardMap(fs)[(f.proto, f.port)] == Fwd(f.target, f.proxy, f.idle, f.enabled)
    decreases |fs|
  {
    var n := |fs| - 1;
    if i < n {
      DeclaredIsLive(fs[..n], i);
      assert KeyOf(fs[n]) != KeyOf(fs[i]);
    }
  }

  /** and every live one is declared. */
  lemma {:induction false} LiveIsDeclared(fs: seq<C.Forward>, k: ForwardKey) returns (i: nat)
    requires k in ForwardMap(fs)
    ensures i < |fs| && (fs[i].proto, fs[i].port) == k
    decreases |fs|
  {
    var n := |fs| - 1;
    if KeyOf(fs[n]) == k {
      i := n;
    } else {
      i := LiveIsDeclared(fs[..n], k);
    }
  }

  lemma {:induction false} RemoveForwardDoes(c: Ctl, k: ForwardKey)
    requires Tidy(c)
    ensures var (c', ok) := RemoveForwardIn(c, k);
            (ok <==> k in c.forwards) && (ok ==> ForwardRemoved(c, k, c'))
  {
    var fs := c.cfg.forwards;
    if k in c.forwards {
      var i := LiveIsDeclared(fs, k);
      DropForwardOne(fs, k, i);
    }
  }

  // ---------------------------------------------------------------- servers

  /** A profile this build can dial: an address, or the DHT with a credential to look it up by. */
  predicate Dialable(t: T.Target, dht: bool) {
    if t.addr == "dht" then dht && t.discovery.Some? else true
  }

  /** A profile's place in the live list. */
  predicate NamedAt(ts: seq<T.Target>, name: string, i: nat) {
    i < |ts| && ts[i].name == name
  }

  predicate Apart(ts: seq<T.Target>) {
    forall i, j :: 0 <= i < j < |ts| ==> ts[i].name != ts[j].name
  }

  lemma {:induction false} LiveNames(c: Ctl)
    requires Tidy(c)
    ensures |c.servers| == |c.cfg.servers| && Apart(c.servers)
    ensures forall i :: 0 <= i < |c.servers| ==> c.servers[i].name == c.cfg.servers[i].name
  {
    forall i, j | 0 <= i < j < |c.servers|
      ensures c.servers[i].name != c.servers[j].name
    {
      assert c.cfg.servers[i].name != c.cfg.servers[j].name;
    }
  }

  lemma {:induction false} FindIs(ts: seq<T.Target>, name: string)
    requires Apart(ts)
    ensures Find(ts, name).None? <==> forall i: nat :: !NamedAt(ts, name, i)
    ensures forall i: nat :: NamedAt(ts, name, i) ==> Find(ts, name) == Some(ts[i])
  {
    var t := Find(ts, name);
    if t.Some? {
      var j: nat :| j < |ts| && ts[j] == t.value;
      assert NamedAt(ts, name, j);
      forall i: nat | NamedAt(ts, name, i)
        ensures i == j
      {
      }
    }
  }

  /** A select retargets the body that runs and records the name. */
  ghost predicate Selected(c: Ctl, name: string, c': Ctl) {
    && OnlyActive(c, c', c.cfg.(active := Some(name)))
    && exists i: nat :: NamedAt(c.servers, name, i) && Runs(c, c', c.servers[i], c.active.mode)
  }

  lemma {:induction false} SelectDoes(c: Ctl, name: string, dht: bool)
    requires Tidy(c)
    ensures var (c', ok) := SelectServerIn(c, name, dht);
            && (ok <==> exists i: nat :: NamedAt(c.servers, name, i) && Dialable(c.servers[i], dht))
            && (ok ==> Selected(c, name, c'))
  {
    LiveNames(c);
    FindIs(c.servers, name);
    if i: nat :| NamedAt(c.servers, name, i) {
      assert Find(c.servers, name) == Some(c.servers[i]);
      var (c', ok) := SelectServerIn(c, name, dht);
      assert ok ==> Runs(c, c', c.servers[i], c.active.mode);
    }
  }

  /** Some profile is looked up by this key. */
  predicate Locates(ts: seq<T.Target>, key: Bytes) {
    exists i :: 0 <= i < |ts| && ts[i].discovery.Some? && Decode(ts[i].discovery.value) == Some(key)
  }

  ghost predicate TakesServer(c: Ctl, m: Mutation)
    requires m.AddServer?
  {
    && m.name != "" && Clean(m.name) && Clean(m.addr) && Clean(m.secret)
    && Decode(m.secret).Some? && !Locates(c.servers, Decode(m.secret).value)
    && m.addr != "dht" && HostPort(m.addr) && forall i: nat :: !NamedAt(c.servers, m.name, i)
  }

  /** One more profile, live and declared, its secret in canonical hex doing both jobs. */
  ghost predicate ServerAdded(c: Ctl, m: Mutation, c': Ctl)
    requires m.AddServer?
  {
    && OnlyServers(c, c') && Decode(m.secret).Some?
    && var key := Encode(Decode(m.secret).value);
       && c'.servers == c.servers + [T.Target(m.name, m.addr, key, key, None, m.transport)]
       && c'.cfg.servers == c.cfg.servers + [C.Server(m.name, m.addr, None, key, key, None, m.transport)]
  }

  lemma {:induction false} AddServerDoes(c: Ctl, m: Mutation)
    requires Tidy(c) && m.AddServer?
    ensures var (c', ok) := AddServerIn(c, m);
            (ok <==> TakesServer(c, m)) && (ok ==> ServerAdded(c, m, c'))
  {
    ValidHostPortIff(m.addr);
    CleanIff(m.name);
    CleanIff(m.addr);
    CleanIff(m.secret);
    LiveNames(c);
    FindIs(c.servers, m.name);
    if Decode(m.secret).Some? {
      NormalizeKeepsKey(m.secret);
      assert IsDiscovery(c.servers, Decode(m.secret)) <==> Locates(c.servers, Decode(m.secret).value);
    }
  }

  lemma {:induction false} DropNone(ts: seq<T.Target>, ss: seq<C.Server>, name: string)
    requires |ts| == |ss| && forall i :: 0 <= i < |ss| ==> ts[i].name == ss[i].name && ss[i].name != name
    ensures DropTarget(ts, name) == ts && DropServer(ss, name) == ss
    decreases |ts|
  {
    if ts != [] {
      DropNone(ts[..|ts| - 1], ss[..|ss| - 1], name);
    }
  }

  lemma {:induction false} DropOne(ts: seq<T.Target>, ss: seq<C.Server>, name: string, i: nat)
    requires |ts| == |ss| && i < |ss| && ss[i].name == name && C.DistinctNames(ss)
    requires forall j :: 0 <= j < |ss| ==> ts[j].name == ss[j].name
    ensures OneLess(ts, DropTarget(ts, name), i) && OneLess(ss, DropServer(ss, name), i)
    decreases |ts|
  {
    var n := |ts| - 1;
    if i == n {
      DropNone(ts[..n], ss[..n], name);
    } else {
      DropOne(ts[..n], ss[..n], name, i);
      assert ts[..n][..i] + ts[..n][i + 1..] + [ts[n]] == ts[..i] + ts[i + 1..];
      assert ss[..n][..i] + ss[..n][i + 1..] + [ss[n]] == ss[..i] + ss[i + 1..];
    }
  }

  /** One profile less, in the same place of both lists. */
  ghost predicate ServerRemoved(c: Ctl, name: string, c': Ctl) {
    && OnlyServers(c, c')
    && exists i: nat :: NamedAt(c.servers, name, i)
                        && OneLess(c.servers, c'.servers, i) && OneLess(c.cfg.servers, c'.cfg.servers, i)
  }

  /** Any profile can go but the one in use. */
  lemma {:induction false} RemoveServerDoes(c: Ctl, name: string)
    requires Tidy(c)
    ensures var (c', ok) := RemoveServerIn(c, name);
            && (ok <==> name != c.active.target.name && exists i: nat :: NamedAt(c.servers, name, i))
            && (ok ==> ServerRemoved(c, name, c'))
  {
    LiveNames(c);
    if i: nat :| NamedAt(c.servers, name, i) {
      DropOne(c.servers, c.cfg.servers, name, i);
    } else {
      forall i | 0 <= i < |c.cfg.servers|
        ensures c.cfg.servers[i].name != name
      {
        assert !NamedAt(c.servers, name, i);
      }
      DropNone(c.servers, c.cfg.servers, name);
    }
  }

  // ---------------------------------------------------------------- bodies

  /** The body a connect brings up, and the one a stop falls back to: the forwards if there are
      any. */
  predicate BootBody(c: Ctl, m: T.RunMode) {
    if |c.forwards| > 0 then m.Forwards? else m == c.fallback
  }

  predicate BaseBody(c: Ctl, m: T.RunMode) {
    if |c.forwards| > 0 then m.Forwards? else m.Idle?
  }

  lemma {:induction false} BodiesAre(c: Ctl)
    ensures BootBody(c, BootMode(c)) && BaseBody(c, BaseMode(c))
  {
    assert |c.forwards| > 0 <==> c.forwards != map[];
  }

  /** A body admission passes: it uses nothing a slot does. */
  ghost predicate Fits(c: Ctl, m: T.RunMode) {
    T.BodyApart(c.active.peers, m)
  }

  /** The first session of a name. */
  predicate SessionAt(c: Ctl, name: string, i: nat) {
    i < |c.pppoe| && c.pppoe[i].0 == name && forall j :: 0 <= j < i ==> c.pppoe[j].0 != name
  }

  lemma {:induction false} FindSessionIs(ps: seq<(string, T.PppoeRun)>, name: string)
    ensures FindSession(ps, name).None? <==> forall i :: 0 <= i < |ps| ==> ps[i].0 != name
    ensures forall i :: 0 <= i < |ps| && ps[i].0 == name && (forall j :: 0 <= j < i ==> ps[j].0 != name) ==>
              FindSession(ps, name) == Some(ps[i].1)
  {
    if ps != [] {
      FindSessionIs(ps[1..], name);
      assert forall i :: 0 < i < |ps| ==> ps[1..][i - 1] == ps[i];
    }
  }

  lemma {:induction false} FirstSession(ps: seq<(string, T.PppoeRun)>, name: string) returns (i: nat)
    requires FindSession(ps, name).Some?
    ensures i < |ps| && ps[i].0 == name && (forall j :: 0 <= j < i ==> ps[j].0 != name)
    ensures FindSession(ps, name) == Some(ps[i].1)
  {
    if ps[0].0 == name {
      i := 0;
    } else {
      var k := FirstSession(ps[1..], name);
      i := k + 1;
    }
  }

  /** A session is brought up in place of the body, whatever runs. */
  ghost predicate Spawned(c: Ctl, name: string, c': Ctl) {
    && OnlyActive(c, c', c.cfg)
    && exists i: nat :: SessionAt(c, name, i) && Runs(c, c', c.active.target, T.Pppoe(name, c.pppoe[i].1))
  }

  lemma {:induction false} SpawnDoes(c: Ctl, name: string)
    requires T.Admitted(c.active)
    ensures var (c', ok) := SpawnPppoeIn(c, name);
            && (ok <==> exists i: nat :: SessionAt(c, name, i) && Fits(c, T.Pppoe(name, c.pppoe[i].1)))
            && (ok ==> Spawned(c, name, c'))
  {
    FindSessionIs(c.pppoe, name);
    if FindSession(c.pppoe, name).Some? {
      var i := FirstSession(c.pppoe, name);
      T.AdmitsIffApart(c.active.peers, T.Pppoe(name, c.pppoe[i].1));
      var (c', ok) := SpawnPppoeIn(c, name);
      assert ok ==> Runs(c, c', c.active.target, T.Pppoe(name, c.pppoe[i].1));
    }
  }

  predicate Stopped(c: Ctl, c': Ctl) {
    && OnlyActive(c, c', c.cfg) && BaseBody(c, c'.active.mode)
    && Runs(c, c', c.active.target, c'.active.mode)
  }

  /** A stop names the session that runs. */
  lemma {:induction false} StopDoes(c: Ctl, name: string)
    ensures var (c', ok) := StopSessionIn(c, name);
            && (ok <==> c.active.mode.Pppoe? && c.active.mode.name == name)
            && (ok ==> Stopped(c, c'))
  {
    BodiesAre(c);
  }

  /** A connect brings up the boot body; one with a name retargets and records it. */
  ghost predicate Connected(c: Ctl, name: string, c': Ctl) {
    && BootBody(c, c'.active.mode)
    && if name == "" then OnlyActive(c, c', c.cfg) && Runs(c, c', c.active.target, c'.active.mode)
       else
         && OnlyActive(c, c', c.cfg.(active := Some(name)))
         && exists i: nat :: NamedAt(c.servers, name, i) && Runs(c, c', c.servers[i], c'.active.mode)
  }

  /** It is taken only from a client that runs nothing. */
  ghost predicate TakesConnect(c: Ctl, name: string, dht: bool) {
    && (c.active.mode.Idle? || c.active.mode.Offline?)
    && (exists boot :: BootBody(c, boot) && Fits(c, boot))
    && (name != "" ==> exists i: nat :: NamedAt(c.servers, name, i) && Dialable(c.servers[i], dht))
  }

  lemma {:induction false} BootFits(c: Ctl)
    requires T.Admitted(c.active)
    ensures T.Admits(c.active.claims, T.BodyClaims(BootMode(c))) <==> exists boot :: BootBody(c, boot) && Fits(c, boot)
  {
    BodiesAre(c);
    T.AdmitsIffApart(c.active.peers, BootMode(c));
    assert Fits(c, BootMode(c)) <==> T.Admits(c.active.claims, T.BodyClaims(BootMode(c)));
    assert forall boot :: BootBody(c, boot) ==> boot == BootMode(c);
  }

  lemma {:induction false} PlainConnectDoes(c: Ctl, dht: bool)
    requires T.Admitted(c.active)
    ensures var (c', ok) := ConnectIn(c, "", dht);
            (ok <==> TakesConnect(c, "", dht)) && (ok ==> Connected(c, "", c'))
  {
    BodiesAre(c);
    BootFits(c);
  }

  /** A connect that found its server. */
  lemma {:induction false} FoundConnectDoes(c: Ctl, name: string, t: T.Target, dht: bool)
    requires T.Admitted(c.active) && name != "" && Find(c.servers, name) == Some(t)
    ensures var (c', ok) := ConnectIn(c, name, dht);
            && (ok <==> TakesConnect(c, "", dht) && Dialable(t, dht))
            && (ok ==> OnlyActive(c, c', c.cfg.(active := Some(name))) && Runs(c, c', t, BootMode(c)))
  {
    BootFits(c);
  }

  lemma {:induction false} NamedConnectDoes(c: Ctl, name: string, dht: bool)
    requires Tidy(c) && T.Admitted(c.active) && name != ""
    ensures var (c', ok) := ConnectIn(c, name, dht);
            (ok <==> TakesConnect(c, name, dht)) && (ok ==> Connected(c, name, c'))
  {
    LiveNames(c);
    FindIs(c.servers, name);
    if i: nat :| NamedAt(c.servers, name, i) {
      FoundConnectDoes(c, name, c.servers[i], dht);
      BodiesAre(c);
      assert forall j: nat :: NamedAt(c.servers, name, j) ==> c.servers[j] == c.servers[i];
    }
  }

  lemma {:induction false} ConnectDoes(c: Ctl, name: string, dht: bool)
    requires Tidy(c) && T.Admitted(c.active)
    ensures var (c', ok) := ConnectIn(c, name, dht);
            (ok <==> TakesConnect(c, name, dht)) && (ok ==> Connected(c, name, c'))
  {
    if name == "" {
      PlainConnectDoes(c, dht);
    } else {
      NamedConnectDoes(c, name, dht);
    }
  }

  /** A disconnect parks a client that is not parked. */
  lemma {:induction false} DisconnectDoes(c: Ctl)
    ensures var (c', ok) := DisconnectIn(c);
            && (ok <==> !c.active.mode.Offline?)
            && (ok ==> OnlyActive(c, c', c.cfg) && Runs(c, c', c.active.target, T.Offline))
  {
  }

  // ---------------------------------------------------------------- peer slots

  function Given(s: string): Option<string> {
    if s == "" then None else Some(s)
  }

  /** A slot beside what there is: it uses nothing that another slot, the running body or the
      boot body does, nor anything twice. */
  ghost predicate SlotFits(c: Ctl, slot: T.SlotSpec) {
    && T.SlotStands(slot)
    && (forall i, claim :: 0 <= i < |c.active.peers| && T.SlotUses(c.active.peers[i], claim) ==>
          !T.SlotUses(slot, claim))
    && (forall claim :: T.SlotUses(slot, claim) ==> !T.BodyUses(c.active.mode, claim))
    && (forall boot, claim :: BootBody(c, boot) && T.SlotUses(slot, claim) ==> !T.BodyUses(boot, claim))
  }

  lemma {:induction false} SlotFitsIff(c: Ctl, slot: T.SlotSpec)
    requires T.Admitted(c.active)
    ensures SlotFits(c, slot) <==>
            && T.Distinct(T.PeerClaims(c.active.peers + [slot]))
            && T.Admits(T.BodyClaims(c.active.mode), T.PeerClaims([slot]))
            && T.Admits(T.BodyClaims(BootMode(c)), T.PeerClaims([slot]))
  {
    T.DistinctIffApart(c.active.peers);
    T.DistinctIffApart(c.active.peers + [slot]);
    T.ApartNext(c.active.peers, slot);
    T.SlotAdmittedIff(c.active.mode, slot);
    T.SlotAdmittedIff(BootMode(c), slot);
    BodiesAre(c);
    assert forall boot :: BootBody(c, boot) ==> boot == BootMode(c);
  }

  /** No slot of its kind yet: one consumer in all, one provider of each capability. */
  predicate Vacant(c: Ctl, slot: T.SlotSpec) {
    forall i :: 0 <= i < |c.active.peers| ==>
      match slot
      case Consumer(_, _, _, _, _) => !c.active.peers[i].Consumer?
      case Provider(bits, _, _) => c.active.peers[i].Provider? ==> c.active.peers[i].bits != bits
  }

  lemma {:induction false} AttachIff(c: Ctl, slot: T.SlotSpec)
    requires T.Admitted(c.active)
    ensures var (a, ok) := T.AttachPeer(c.active, slot, BootMode(c));
            && (ok <==> Vacant(c, slot) && SlotFits(c, slot))
            && (ok ==> Hosts(c, c.(active := a), c.active.peers + [slot]))
  {
    SlotFitsIff(c, slot);
    assert Vacant(c, slot) <==> forall i :: 0 <= i < |c.active.peers| ==> !T.Clashes(c.active.peers[i], slot);
  }

  /** The slot a consumer attach asks for. */
  function ConsumerAsked(m: Mutation): T.SlotSpec
    requires m.AttachPeer?
  {
    T.Consumer(m.peerId, 1, if m.dev == "" then "zn0" else m.dev, m.exit, m.exitStrict)
  }

  predicate Printable(m: Mutation)
    requires m.AttachPeer?
  {
    Clean(m.peerId) && Clean(m.dev) && Clean(m.iface)
  }

  lemma {:induction false} PrintableIff(m: Mutation)
    requires m.AttachPeer?
    ensures Printable(m) <==> !(HasControl(m.peerId) || HasControl(m.dev) || HasControl(m.iface))
  {
    CleanIff(m.peerId);
    CleanIff(m.dev);
    CleanIff(m.iface);
  }

  ghost predicate TakesConsumer(c: Ctl, m: Mutation)
    requires m.AttachPeer?
  {
    && Printable(m) && c.hasPeerSecret && Decode(m.peerId).Some? && m.iface == "" && m.want == 1
    && (m.exitStrict ==> m.exit) && !(c.fallback.Device? && c.fallback.device.TunDevice?)
    && Vacant(c, ConsumerAsked(m)) && SlotFits(c, ConsumerAsked(m))
  }

  /** A consumer's slot is attached and its tun table saved. */
  predicate ConsumerAttached(c: Ctl, m: Mutation, c': Ctl)
    requires m.AttachPeer?
  {
    var tun := C.Tun(Given(m.dev), None, m.exit, m.exitStrict, Some(m.peerId));
    OnlyActive(c, c', c.cfg.(tun := Some(tun))) && Hosts(c, c', c.active.peers + [ConsumerAsked(m)])
  }

  lemma {:induction false} ConsumerDoes(c: Ctl, m: Mutation)
    requires T.Admitted(c.active) && m.AttachPeer? && m.peerId != ""
    ensures var (c', ok) := AttachPeerIn(c, m);
            (ok <==> TakesConsumer(c, m)) && (ok ==> ConsumerAttached(c, m, c'))
  {
    PrintableIff(m);
    AttachIff(c, ConsumerAsked(m));
    assert AttachFields(m) ==> ConsumerSlot(ConsumerRecord(m)) == ConsumerAsked(m);
  }

  /** The keys a list of identities stands for. */
  predicate KeysOf(allow: seq<string>, keys: seq<Bytes>) {
    |keys| == |allow| && forall i :: 0 <= i < |allow| ==> Decode(allow[i]) == Some(keys[i])
  }

  lemma {:induction false} AllowedAreKeys(allow: seq<string>)
    requires forall i :: 0 <= i < |allow| ==> Decode(allow[i]).Some?
    ensures KeysOf(allow, Allowed(allow))
  {
    if allow != [] {
      AllowedAreKeys(allow[..|allow| - 1]);
    }
  }

  /** The saved peer table, or an empty one. */
  function Saved(c: Ctl): C.Peer {
    if c.cfg.peer.Some? then c.cfg.peer.value else C.Peer(false, None, None, [])
  }

  /** The slot a provider attach asks for, open to these keys. */
  function ProviderAsked(m: Mutation, keys: seq<Bytes>): T.SlotSpec
    requires m.AttachPeer?
  {
    if m.want == 1 then T.Provider(1, T.ExitTun("znx0", Given(m.iface)), keys)
    else T.Provider(2, T.SegmentTap("zns0", m.iface), keys)
  }

  ghost predicate TakesProvider(c: Ctl, m: Mutation)
    requires m.AttachPeer?
  {
    && Printable(m) && c.hasPeerSecret && m.dev == "" && !m.exit && !m.exitStrict
    && ((m.want == 1 && m.iface != "znx0") || (m.want == 2 && m.iface != "" && m.iface != "zns0"))
    && Saved(c).allow != []
    && exists keys :: KeysOf(Saved(c).allow, keys)
                      && Vacant(c, ProviderAsked(m, keys)) && SlotFits(c, ProviderAsked(m, keys))
  }

  /** A provider's slot is attached, open to the saved allowlist, and its keys of the peer table
      saved beside the others. */
  ghost predicate ProviderAttached(c: Ctl, m: Mutation, c': Ctl)
    requires m.AttachPeer?
  {
    var was := Saved(c);
    var now := if m.want == 1 then C.Peer(true, Given(m.iface), was.segment, was.allow)
               else C.Peer(was.exit, was.exitIface, Some(m.iface), was.allow);
    && OnlyActive(c, c', c.cfg.(peer := Some(now)))
    && exists keys :: KeysOf(was.allow, keys) && Hosts(c, c', c.active.peers + [ProviderAsked(m, keys)])
  }

  lemma {:induction false} OneKeyList(allow: seq<string>, a: seq<Bytes>, b: seq<Bytes>)
    requires KeysOf(allow, a) && KeysOf(allow, b)
    ensures a == b
  {
  }

  /** The provider record and what the code asks of it. */
  lemma {:induction false} ProviderOkIff(c: Ctl, m: Mutation)
    requires m.AttachPeer? && AttachFields(m) && m.peerId == ""
    ensures var r := ProviderRecord(c, m);
            && r.allow == Saved(c).allow
            && (ProviderOk(r) <==>
                  && (forall i :: 0 <= i < |r.allow| ==> Decode(r.allow[i]).Some?) && r.allow != []
                  && (if m.want == 1 then m.iface != "znx0" else m.iface != "zns0"))
            && (ProviderOk(r) ==>
                  ProviderAsked(m, Allowed(r.allow)) == (if r.exit then ExitSlot(r) else SegmentSlot(r)))
  {
  }

  lemma {:induction false} ProviderTakenIff(c: Ctl, m: Mutation)
    requires T.Admitted(c.active) && m.AttachPeer? && m.peerId == ""
    requires Printable(m) && c.hasPeerSecret && AttachFields(m)
    ensures TakesProvider(c, m) <==>
            && ProviderOk(ProviderRecord(c, m))
            && var slot := ProviderAsked(m, Allowed(Saved(c).allow)); Vacant(c, slot) && SlotFits(c, slot)
  {
    ProviderOkIff(c, m);
    var allow := Saved(c).allow;
    if forall i :: 0 <= i < |allow| ==> Decode(allow[i]).Some? {
      AllowedAreKeys(allow);
      forall keys | KeysOf(allow, keys)
        ensures keys == Allowed(allow)
      {
        OneKeyList(allow, keys, Allowed(allow));
      }
    } else {
      assert forall keys :: !KeysOf(allow, keys);
    }
  }

  lemma {:induction false} ProviderDoes(c: Ctl, m: Mutation)
    requires T.Admitted(c.active) && m.AttachPeer? && m.peerId == ""
    ensures var (c', ok) := AttachPeerIn(c, m);
            (ok <==> TakesProvider(c, m)) && (ok ==> ProviderAttached(c, m, c'))
  {
    PrintableIff(m);
    if Printable(m) && c.hasPeerSecret && AttachFields(m) {
      ProviderOkIff(c, m);
      ProviderTakenIff(c, m);
      var keys := Allowed(Saved(c).allow);
      AttachIff(c, ProviderAsked(m, keys));
      if ProviderOk(ProviderRecord(c, m)) {
        AllowedAreKeys(Saved(c).allow);
        ProviderMerges(c, m);
      }
    }
  }

  lemma {:induction false} ProviderMerges(c: Ctl, m: Mutation)
    requires m.AttachPeer? && AttachFields(m) && m.peerId == ""
    ensures var was := Saved(c);
            MergePeer(c.cfg.peer, ProviderRecord(c, m)) ==
            if m.want == 1 then C.Peer(true, Given(m.iface), was.segment, was.allow)
            else C.Peer(was.exit, was.exitIface, Some(m.iface), was.allow)
  {
  }

  /** The slot a detach names: a consumer's by its peer, a provider's by an empty one. */
  predicate SlotNamed(slot: T.SlotSpec, peerId: string, want: byte) {
    match slot
    case Consumer(peer, bit, _, _, _) => peer == peerId && bit == want
    case Provider(bits, _, _) => peerId == "" && bits == want
  }

  /** The peer table with a capability's keys out, or no table once it declares nothing. */
  function Cleared(saved: Option<C.Peer>, want: byte): Option<C.Peer> {
    if saved.None? then None
    else
      var was := saved.value;
      var now := if want == 1 then C.Peer(false, None, was.segment, was.allow)
                 else C.Peer(was.exit, was.exitIface, None, was.allow);
      if now == C.Peer(false, None, None, []) then None else Some(now)
  }

  /** One slot less, and its record with it. */
  ghost predicate Detached(c: Ctl, peerId: string, want: byte, c': Ctl) {
    && OnlyActive(c, c', if peerId == "" then c.cfg.(peer := Cleared(c.cfg.peer, want)) else c.cfg.(tun := None))
    && exists i: nat :: i < |c.active.peers| && SlotNamed(c.active.peers[i], peerId, want)
                        && Hosts(c, c', c.active.peers[..i] + c.active.peers[i + 1..])
  }

  /** No consumer goes by the empty name that stands for a provider. */
  predicate ConsumersNamed(slots: seq<T.SlotSpec>) {
    forall i :: 0 <= i < |slots| && slots[i].Consumer? ==> slots[i].peerId != ""
  }

  lemma {:induction false} WithoutNone(slots: seq<T.SlotSpec>, peerId: string, want: byte)
    requires forall i :: 0 <= i < |slots| ==> !SlotNamed(slots[i], peerId, want)
    ensures T.Without(slots, peerId, want) == slots
  {
    if slots != [] {
      WithoutNone(slots[..|slots| - 1], peerId, want);
    }
  }

  lemma {:induction false} WithoutOne(slots: seq<T.SlotSpec>, peerId: string, want: byte, i: nat)
    requires T.UniqueSlots(slots) && ConsumersNamed(slots)
    requires i < |slots| && SlotNamed(slots[i], peerId, want)
    ensures T.Without(slots, peerId, want) == slots[..i] + slots[i + 1..]
    decreases |slots|
  {
    var n := |slots| - 1;
    if i == n {
      forall j | 0 <= j < n
        ensures !SlotNamed(slots[j], peerId, want)
      {
        assert !T.SameIdentity(slots[j], slots[i]);
      }
      WithoutNone(slots[..n], peerId, want);
    } else {
      assert !T.SameIdentity(slots[i], slots[n]);
      WithoutOne(slots[..n], peerId, want, i);
      assert slots[..n][..i] + slots[..n][i + 1..] + [slots[n]] == slots[..i] + slots[i + 1..];
    }
  }

  lemma {:induction false} DetachDoes(c: Ctl, peerId: string, want: byte)
    requires T.UniqueSlots(c.active.peers) && ConsumersNamed(c.active.peers)
    ensures var (c', ok) := DetachPeerIn(c, peerId, want);
            && (ok <==> (want == 1 || want == 2)
                        && exists i :: 0 <= i < |c.active.peers| && SlotNamed(c.active.peers[i], peerId, want))
            && (ok ==> Detached(c, peerId, want, c'))
  {
    var slots := c.active.peers;
    if i: nat :| i < |slots| && SlotNamed(slots[i], peerId, want) {
      WithoutOne(slots, peerId, want, i);
    } else {
      WithoutNone(slots, peerId, want);
    }
  }

  // ---------------------------------------------------------------- every mutation

  /** What each message is taken on. */
  ghost predicate Accepts(c: Ctl, m: Mutation, dht: bool) {
    match m
    case SelectServer(name) => exists i: nat :: NamedAt(c.servers, name, i) && Dialable(c.servers[i], dht)
    case SetForwardOptions(proto, port, _, proxy, _) => (proto, port) in c.forwards && !(proxy && proto == Udp)
    case SpawnPppoe(name) => exists i: nat :: SessionAt(c, name, i) && Fits(c, T.Pppoe(name, c.pppoe[i].1))
    case StopSession(name) => c.active.mode.Pppoe? && c.active.mode.name == name
    case AddServer(_, _, _, _) => TakesServer(c, m)
    case RemoveServer(name) => name != c.active.target.name && exists i: nat :: NamedAt(c.servers, name, i)
    case ConnectTo(name) => TakesConnect(c, name, dht)
    case Disconnect => !c.active.mode.Offline?
    case AddForward(_, _, _, _, _, _) => TakesForward(c, m)
    case RemoveForward(proto, port) => (proto, port) in c.forwards
    case AttachPeer(peerId, _, _, _, _, _) => if peerId == "" then TakesProvider(c, m) else TakesConsumer(c, m)
    case DetachPeer(peerId, want) =>
      (want == 1 || want == 2)
      && exists i :: 0 <= i < |c.active.peers| && SlotNamed(c.active.peers[i], peerId, want)
  }

  /** And what it does. */
  ghost predicate Does(c: Ctl, m: Mutation, c': Ctl) {
    match m
    case SelectServer(name) => Selected(c, name, c')
    case SetForwardOptions(_, _, _, _, _) => OptionsSet(c, m, c')
    case SpawnPppoe(name) => Spawned(c, name, c')
    case StopSession(_) => Stopped(c, c')
    case AddServer(_, _, _, _) => ServerAdded(c, m, c')
    case RemoveServer(name) => ServerRemoved(c, name, c')
    case ConnectTo(name) => Connected(c, name, c')
    case Disconnect => OnlyActive(c, c', c.cfg) && Runs(c, c', c.active.target, T.Offline)
    case AddForward(_, _, _, _, _, _) => ForwardAdded(c, m, c')
    case RemoveForward(proto, port) => ForwardRemoved(c, (proto, port), c')
    case AttachPeer(peerId, _, _, _, _, _) => if peerId == "" then ProviderAttached(c, m, c')
      else ConsumerAttached(c, m, c')
    case DetachPeer(peerId, want) => Detached(c, peerId, want, c')
  }

  lemma {:induction false} GoodConsumersNamed(c: Ctl)
    requires Good(c)
    ensures ConsumersNamed(c.active.peers)
  {
    forall i | 0 <= i < |c.active.peers| && c.active.peers[i].Consumer?
      ensures c.active.peers[i].peerId != ""
    {
      var slot := c.active.peers[i];
      assert slot in PeerSlots(c.cfg.tun, c.cfg.peer).value;
      assert slot in ConsumerSlots(c.cfg.tun);
    }
  }

  /** Main result: in every state a run can reach, each mutation is accepted exactly when its own
      conditions hold, and then does what it says and no more; refused, it changes nothing. */
  lemma {:induction false} EveryMutationDoes(c: Ctl, m: Mutation, dht: bool)
    requires Good(c)
    ensures var (c', ok) := Apply(c, m, dht);
            && (ok <==> Accepts(c, m, dht)) && (if ok then Does(c, m, c') else c' == c)
  {
    GoodIsTidy(c);
    if !Apply(c, m, dht).1 {
      RefusedChangesNothing(c, m, dht);
    }
    match m {
      case SelectServer(name) => SelectDoes(c, name, dht);
      case SetForwardOptions(_, _, _, _, _) => SetOptionsDoes(c, m);
      case SpawnPppoe(name) => SpawnDoes(c, name);
      case StopSession(name) => StopDoes(c, name);
      case AddServer(_, _, _, _) => AddServerDoes(c, m);
      case RemoveServer(name) => RemoveServerDoes(c, name);
      case ConnectTo(name) => ConnectDoes(c, name, dht);
      case Disconnect => DisconnectDoes(c);
      case AddForward(_, _, _, _, _, _) => AddForwardDoes(c, m);
      case RemoveForward(proto, port) => RemoveForwardDoes(c, (proto, port));
      case AttachPeer(peerId, _, _, _, _, _) =>
        if peerId == "" {
          ProviderDoes(c, m);
        } else {
          ConsumerDoes(c, m);
        }
      case DetachPeer(peerId, want) =>
        GoodConsumersNamed(c);
        DetachDoes(c, peerId, want);
    }
  }

  /** After the save: an edited or removed forward restarts a forwards body, an added one also
      brings an idle client up; nothing else moves. */
  predicate Settles(c: Ctl, m: Mutation, c': Ctl) {
    var restarts := m.SetForwardOptions? || m.RemoveForward? || m.AddForward?;
    if restarts && c.active.mode.Forwards? then OnlyActive(c, c', c.cfg) && Runs(c, c', c.active.target, T.Forwards)
    else if m.AddForward? && c.active.mode.Idle? then
      OnlyActive(c, c', c.cfg) && Runs(c, c', c.active.target, T.Forwards)
    else c' == c
  }

  lemma {:induction false} FollowSettles(c: Ctl, m: Mutation)
    ensures Settles(c, m, Follow(c, AfterOf(c, m)))
  {
  }

  /** An attach is answered as taking effect later exactly when the body opens no control session. */
  lemma {:induction false} PairsLaterIff(c: Ctl, m: Mutation)
    ensures AfterOf(c, m).PairsLater? <==>
            m.AttachPeer? && (c.active.mode.Offline? || c.active.mode.Device? || c.active.mode.Pppoe?)
  {
  }

  /** Main result: and a whole exchange is its mutation and, if the save came back in time, what
      follows it. */
  lemma {:induction false} EveryExchangeDoes(c: Ctl, r: Request, dht: bool)
    requires Good(c)
    ensures var (c', ok) := Answer(c, r, dht);
            && (ok <==> Accepts(c, r.m, dht)) && (!ok ==> c' == c)
            && (ok ==> exists mid :: Does(c, r.m, mid) && if r.inTime then Settles(mid, r.m, c') else c' == mid)
  {
    var (mid, ok) := Apply(c, r.m, dht);
    EveryMutationDoes(c, r.m, dht);
    FollowSettles(mid, r.m);
  }

  // ---------------------------------------------------------------- boot

  /** The canonical hex of a key; anything that is no key is left as it is. */
  function Canonical(s: string): string {
    if Decode(s).Some? then Encode(Decode(s).value) else s
  }

  /** A declared server as it is dialled. */
  predicate DialledAs(s: C.Server, t: T.Target) {
    && t.name == s.name && t.addr == s.addr && t.transport == s.transport
    && t.secret == Canonical(s.secret) && t.credential == Canonical(s.credential)
    && t.discovery == if s.discovery.Some? then Some(Canonical(s.discovery.value)) else None
  }

  /** The first session that starts by itself. */
  predicate StartsAt(ps: seq<C.Pppoe>, i: nat) {
    i < |ps| && ps[i].autostart && forall j :: 0 <= j < i ==> !ps[j].autostart
  }

  lemma {:induction false} AutostartIs(ps: seq<C.Pppoe>)
    ensures Autostart(ps).None? <==> forall i :: 0 <= i < |ps| ==> !ps[i].autostart
    ensures forall i: nat :: StartsAt(ps, i) ==> Autostart(ps) == Some(ps[i])
  {
    if ps != [] {
      AutostartIs(ps[1..]);
      forall i: nat | StartsAt(ps, i)
        ensures Autostart(ps) == Some(ps[i])
      {
        if i > 0 {
          assert !ps[0].autostart && ps[1..][i - 1] == ps[i] && StartsAt(ps[1..], i - 1);
        }
      }
      assert forall i :: 0 < i < |ps| ==> ps[i] == ps[1..][i - 1];
    }
  }

  /** The body without forwards: the session that starts by itself, else the device, else none. */
  ghost predicate FallsBackTo(cfg: C.Config, m: T.RunMode) {
    && (forall i: nat :: StartsAt(cfg.pppoe, i) ==>
          m == T.Pppoe(cfg.pppoe[i].name, T.PppoeRun("zppp0", cfg.pppoe[i].defaultRoute)))
    && ((forall i :: 0 <= i < |cfg.pppoe| ==> !cfg.pppoe[i].autostart) ==>
          m ==
          if cfg.tun.Some? && cfg.tun.value.exitVia.None? then
            var tun := cfg.tun.value;
            T.Device(T.TunDevice(if tun.dev.Some? then tun.dev.value else "zn0", tun.exit, tun.exitStrict))
          else if cfg.tap.Some? then T.Device(T.TapDevice(cfg.tap.value, None))
          else T.Idle)
  }

  lemma {:induction false} FallbackIs(cfg: C.Config)
    ensures FallsBackTo(cfg, FallbackOf(cfg))
  {
    AutostartIs(cfg.pppoe);
  }

  lemma {:induction false} SessionsAre(ps: seq<C.Pppoe>)
    ensures |PppoeRuns(ps)| == |ps|
    ensures forall i :: 0 <= i < |ps| ==> PppoeRuns(ps)[i] == (ps[i].name, T.PppoeRun("zppp0", ps[i].defaultRoute))
  {
    if ps != [] {
      SessionsAre(ps[..|ps| - 1]);
    }
  }

  /** The slots a config declares: a consumer for a tun that goes out through a peer, a provider
      for each capability of the peer table. */
  predicate SlotsAre(cfg: C.Config, slots: seq<T.SlotSpec>, keys: seq<Bytes>) {
    var peer := if cfg.peer.Some? then cfg.peer.value else C.Peer(false, None, None, []);
    slots ==
    (if cfg.tun.Some? && cfg.tun.value.exitVia.Some? then
       var tun := cfg.tun.value;
       [T.Consumer(tun.exitVia.value, 1, if tun.dev.Some? then tun.dev.value else "zn0", tun.exit, tun.exitStrict)]
     else [])
    + (if peer.exit then [T.Provider(1, T.ExitTun("znx0", peer.exitIface), keys)] else [])
    + (if peer.segment.Some? then [T.Provider(2, T.SegmentTap("zns0", peer.segment.value), keys)] else [])
  }

  lemma {:induction false} DeclaredSlots(cfg: C.Config)
    requires PeerSlots(cfg.tun, cfg.peer).Some?
    ensures var allow := if cfg.peer.Some? then cfg.peer.value.allow else [];
            exists keys :: KeysOf(allow, keys) && SlotsAre(cfg, PeerSlots(cfg.tun, cfg.peer).value, keys)
  {
    var allow := if cfg.peer.Some? then cfg.peer.value.allow else [];
    AllowedAreKeys(allow);
    assert SlotsAre(cfg, PeerSlots(cfg.tun, cfg.peer).value, Allowed(allow));
  }

  lemma {:induction false} ServersAre(ss: seq<C.Server>)
    ensures |Targets(ss)| == |ss| && forall i :: 0 <= i < |ss| ==> DialledAs(ss[i], Targets(ss)[i])
  {
  }

  /** The server a file points at, or its first. */
  predicate PointsAt(cfg: C.Config, ts: seq<T.Target>, t: T.Target, i: nat) {
    i < |ts| && t == ts[i] && if cfg.active.Some? then ts[i].name == cfg.active.value else i == 0
  }

  lemma {:induction false} ActiveServerIs(cfg: C.Config)
    requires ActiveServer(cfg).Some?
    ensures exists i: nat :: PointsAt(cfg, Targets(cfg.servers), ActiveServer(cfg).value, i)
  {
    var ts, t := Targets(cfg.servers), ActiveServer(cfg).value;
    if cfg.active.Some? {
      var i: nat :| i < |ts| && ts[i] == t;
      assert PointsAt(cfg, ts, t, i);
    } else {
      assert PointsAt(cfg, ts, t, 0);
    }
  }

  /** What a file boots into: its own servers, sessions and forwards, */
  lemma {:induction false} BootLists(cfg: C.Config)
    requires C.Valid(cfg) && Boot(cfg).Some?
    ensures var c := Boot(cfg).value;
            && c.cfg == cfg && Tidy(c) && c.hasPeerSecret == cfg.peerSecret.Some?
            && |c.servers| == |cfg.servers|
            && (forall i :: 0 <= i < |cfg.servers| ==> DialledAs(cfg.servers[i], c.servers[i]))
            && |c.pppoe| == |cfg.pppoe|
            && (forall i :: 0 <= i < |cfg.pppoe| ==>
                  c.pppoe[i] == (cfg.pppoe[i].name, T.PppoeRun("zppp0", cfg.pppoe[i].defaultRoute)))
  {
    ServersAre(cfg.servers);
    SessionsAre(cfg.pppoe);
  }

  lemma {:induction false} BootParts(cfg: C.Config)
    requires Boot(cfg).Some?
    ensures var c := Boot(cfg).value;
            && ActiveServer(cfg) == Some(c.active.target) && c.servers == Targets(cfg.servers)
            && c.fallback == FallbackOf(cfg) && c.active.mode == BootMode(c)
            && PeerSlots(cfg.tun, cfg.peer) == Some(c.active.peers)
  {
  }

  /** and the server, body and slots it declares. */
  lemma {:induction false} BootRuns(cfg: C.Config)
    requires Boot(cfg).Some?
    ensures var c := Boot(cfg).value;
            && (exists i: nat :: PointsAt(cfg, c.servers, c.active.target, i))
            && FallsBackTo(cfg, c.fallback) && BootBody(c, c.active.mode)
            && (exists keys :: KeysOf(if cfg.peer.Some? then cfg.peer.value.allow else [], keys)
                               && SlotsAre(cfg, c.active.peers, keys))
  {
    BootParts(cfg);
    FallbackIs(cfg);
    ActiveServerIs(cfg);
    DeclaredSlots(cfg);
    BodiesAre(Boot(cfg).value);
  }
}
