/** The admin dispatcher over the shared objects it edits, each through its own locked methods,
    which keep the config and the live state together (`src/clientctl.rs`). */
module AdminDispatcher {
  import opened Base
  import opened Secret
  import C = Config
  import K = ConfigCodec
  import T = ActiveTarget
  import F = Forwards
  import S = Servers
  import opened Control
  import opened ControlSafety

  // ---------------------------------------------------------------- list loops

  method RetainServers(ss: seq<C.Server>, name: string) returns (left: seq<C.Server>)
    ensures left == DropServer(ss, name)
  {
    left := [];
    var i := 0;
    while i < |ss|
      invariant 0 <= i <= |ss| && left == DropServer(ss[..i], name)
    {
      assert ss[..i + 1][..i] == ss[..i];
      if ss[i].name != name {
        left := left + [ss[i]];
      }
      i := i + 1;
    }
    assert ss[..i] == ss;
  }

  method RetainForwards(fs: seq<C.Forward>, k: ForwardKey) returns (left: seq<C.Forward>)
    ensures left == DropForward(fs, k)
  {
    left := [];
    var i := 0;
    while i < |fs|
      invariant 0 <= i <= |fs| && left == DropForward(fs[..i], k)
    {
      assert fs[..i + 1][..i] == fs[..i];
      if KeyOf(fs[i]) != k {
        left := left + [fs[i]];
      }
      i := i + 1;
    }
    assert fs[..i] == fs;
  }

  /** The declared list with the options of a key's first entry replaced. */
  method EditOptions(fs: seq<C.Forward>, k: ForwardKey, enabled: bool, proxy: bool, idle: Option<nat>)
    returns (edited: seq<C.Forward>)
    ensures edited == match IndexOf(fs, k)
                      case Some(i) => fs[i := fs[i].(enabled := enabled, proxy := proxy, idle := idle)]
                      case None => fs
  {
    var i := 0;
    while i < |fs|
      invariant 0 <= i <= |fs|
      invariant IndexOf(fs, k) == match IndexOf(fs[i..], k) case Some(j) => Some(i + j) case None => None
    {
      if KeyOf(fs[i]) == k {
        return fs[i := fs[i].(enabled := enabled, proxy := proxy, idle := idle)];
      }
      assert fs[i..][1..] == fs[i + 1..];
      i := i + 1;
    }
    edited := fs;
  }

  // ---------------------------------------------------------------- the dispatcher

  /** The shared objects a running client's admin socket edits, and its parsed config. */
  class Dispatcher {
    var cfg: C.Config
    const forwards: F.SharedForwards
    const servers: S.SharedServers
    const active: T.SharedTarget
    const pppoe: seq<(string, T.PppoeRun)>
    const fallback: T.RunMode
    const hasPeerSecret: bool

    function Now(): Ctl
      reads this, forwards, servers, active
    {
      Ctl(cfg, forwards.All(), servers.list, active.Now(), pppoe, fallback, hasPeerSecret)
    }

    constructor (c: C.Config, f: F.SharedForwards, s: S.SharedServers, a: T.SharedTarget)
      ensures cfg == c && forwards == f && servers == s && active == a
      ensures pppoe == PppoeRuns(c.pppoe) && fallback == FallbackOf(c) && hasPeerSecret == c.peerSecret.Some?
    {
      cfg, forwards, servers, active := c, f, s, a;
      pppoe, fallback, hasPeerSecret := PppoeRuns(c.pppoe), FallbackOf(c), c.peerSecret.Some?;
    }

    /** Boot from a config file: the shared objects it declares, or null when it is refused. */
    static method BootFrom(c: C.Config) returns (d: Dispatcher?)
      ensures d != null <==> Boot(c).Some?
      ensures d != null ==>
                && fresh(d) && fresh(d.forwards) && fresh(d.servers) && fresh(d.active)
                && d.Now() == Boot(c).value
      ensures d != null && C.Valid(c) && K.WellFormed(c) ==> Good(d.Now())
    {
      var target, slots := ActiveServer(c), PeerSlots(c.tun, c.peer);
      if target.None? || slots.None? {
        return null;
      }
      var tcp, udp := F.SplitForwards(c.forwards);
      var f := new F.SharedForwards(tcp, udp);
      var s := new S.SharedServers(Targets(c.servers));
      var a := new T.SharedTarget(target.value);
      var any := f.AnyDeclared();
      var ok := a.Init(slots.value, if any then T.Forwards else FallbackOf(c));
      if !ok {
        return null;
      }
      BootStaysGood(c);
      d := new Dispatcher(c, f, s, a);
    }

    /** The body a connect or a new slot is measured against. */
    method BootBody() returns (m: T.RunMode)
      ensures m == BootMode(Now())
    {
      var any := forwards.AnyDeclared();
      m := if any then T.Forwards else fallback;
    }

    /** The body a stopped session gives way to. */
    method BaseBody() returns (m: T.RunMode)
      ensures m == BaseMode(Now())
    {
      var any := forwards.AnyDeclared();
      m := if any then T.Forwards else T.Idle;
    }

    method Select(name: string, dht: bool) returns (ok: bool)
      modifies this, active
      ensures (Now(), ok) == SelectServerIn(old(Now()), name, dht)
    {
      var t := servers.Get(name);
      if t.None? || Undialable(t.value, dht) {
        return false;
      }
      active.Retarget(t.value);
      cfg := cfg.(active := Some(name));
      ok := true;
    }

    method SetOptions(m: Mutation) returns (ok: bool)
      requires m.SetForwardOptions?
      modifies this, forwards
      ensures (Now(), ok) == SetForwardOptionsIn(old(Now()), m)
    {
      if m.proxy && m.proto == Udp {
        return false;
      }
      var idle := IdleOf(m.idleSecs);
      ok := forwards.SetOptions(m.proto, m.port, m.enabled, m.proxy, idle);
      if ok {
        var edited := EditOptions(cfg.forwards, (m.proto, m.port), m.enabled, m.proxy, idle);
        cfg := cfg.(forwards := edited);
      }
    }

    method AddProfile(m: Mutation) returns (ok: bool)
      requires m.AddServer?
      modifies this, servers
      ensures (Now(), ok) == AddServerIn(old(Now()), m)
    {
      if m.name == "" || HasControl(m.name) || HasControl(m.addr) || HasControl(m.secret) {
        return false;
      }
      var secret := Normalize(m.secret);
      if secret.None? || m.addr == "dht" || !ValidHostPort(m.addr) {
        return false;
      }
      NormalizeKeepsKey(m.secret);
      var owned := servers.OwnsDiscovery(Decode(secret.value).value);
      if owned {
        return false;
      }
      ok := servers.Add(T.Target(m.name, m.addr, secret.value, secret.value, None, m.transport));
      if ok {
        var server := C.Server(m.name, m.addr, None, secret.value, secret.value, None, m.transport);
        cfg := cfg.(servers := cfg.servers + [server]);
      }
    }

    method RemoveProfile(name: string) returns (ok: bool)
      modifies this, servers
      ensures (Now(), ok) == RemoveServerIn(old(Now()), name)
    {
      if active.target.name == name {
        return false;
      }
      ok := servers.Remove(name);
      if ok {
        var declared := RetainServers(cfg.servers, name);
        cfg := cfg.(servers := declared);
      }
    }

    method ConnectNamed(name: string, dht: bool) returns (ok: bool)
      modifies this, active
      ensures (Now(), ok) == ConnectIn(old(Now()), name, dht)
    {
      var target: Option<T.Target> := None;
      if name != "" {
        target := servers.Get(name);
        if target.None? || Undialable(target.value, dht) {
          return false;
        }
      }
      var boot := BootBody();
      ok := active.LeavePark(target, boot);
      if ok && name != "" {
        cfg := cfg.(active := Some(name));
      }
    }

    method AddEntry(m: Mutation) returns (ok: bool)
      requires m.AddForward?
      modifies this, forwards
      ensures (Now(), ok) == AddForwardIn(old(Now()), m)
    {
      var target := if m.target == "" then K.DefaultTarget(m.port) else m.target;
      if (m.proxy && m.proto == Udp) || !ValidHostPort(target) || HasControl(target) || fallback.Device? {
        return false;
      }
      var f := C.Forward(m.proto, m.port, target, m.proxy, IdleOf(m.idleSecs), m.enabled);
      ok := forwards.Add(m.proto, m.port, FwdOf(f));
      if ok {
        cfg := cfg.(forwards := cfg.forwards + [f]);
      }
    }

    method RemoveEntry(proto: Proto, port: nat) returns (ok: bool)
      modifies this, forwards
      ensures (Now(), ok) == RemoveForwardIn(old(Now()), (proto, port))
    {
      ok := forwards.Remove(proto, port);
      if ok {
        var left := RetainForwards(cfg.forwards, (proto, port));
        cfg := cfg.(forwards := left);
      }
    }

    method AttachConsumer(m: Mutation) returns (ok: bool)
      requires m.AttachPeer?
      modifies this, active
      ensures (Now(), ok) == AttachConsumerIn(old(Now()), m)
    {
      if fallback.Device? && fallback.device.TunDevice? {
        return false;
      }
      var record := ConsumerRecord(m);
      var boot := BootBody();
      ok := active.Attach(ConsumerSlot(record), boot);
      if ok {
        cfg := cfg.(tun := Some(record));
      }
    }

    method AttachProvider(m: Mutation) returns (ok: bool)
      requires m.AttachPeer? && AttachFields(m) && m.peerId == ""
      modifies this, active
      ensures (Now(), ok) == AttachProviderIn(old(Now()), m)
    {
      var record := ProviderRecord(Now(), m);
      if !ProviderOk(record) {
        return false;
      }
      var boot := BootBody();
      ok := active.Attach(if record.exit then ExitSlot(record) else SegmentSlot(record), boot);
      if ok {
        cfg := cfg.(peer := Some(MergePeer(cfg.peer, record)));
      }
    }

    method Attach(m: Mutation) returns (ok: bool)
      requires m.AttachPeer?
      modifies this, active
      ensures (Now(), ok) == AttachPeerIn(old(Now()), m)
    {
      if HasControl(m.peerId) || HasControl(m.dev) || HasControl(m.iface) || !hasPeerSecret || !AttachFields(m) {
        return false;
      }
      if m.peerId != "" {
        ok := AttachConsumer(m);
      } else {
        ok := AttachProvider(m);
      }
    }

    method Detach(peerId: string, want: byte) returns (ok: bool)
      modifies this, active
      ensures (Now(), ok) == DetachPeerIn(old(Now()), peerId, want)
    {
      if want != PROVIDES_EXIT && want != PROVIDES_SEGMENT {
        return false;
      }
      ok := active.Detach(peerId, want);
      if ok {
        cfg := if peerId == "" then cfg.(peer := ClearPeer(cfg.peer, want)) else cfg.(tun := None);
      }
    }

    method ChangeBody(m: Mutation, dht: bool) returns (ok: bool)
      requires m.SpawnPppoe? || m.StopSession? || m.Disconnect?
      modifies active
      ensures (Now(), ok) == Apply(old(Now()), m, dht)
    {
      match m
      case SpawnPppoe(name) =>
        var config := FindSession(pppoe, name);
        if config.None? {
          return false;
        }
        ok := active.InstallMode(T.Pppoe(name, config.value));
      case StopSession(name) =>
        var base := BaseBody();
        ok := active.Stop(name, base);
      case Disconnect =>
        ok := active.Park();
    }

    /** One mutation up to its save. */
    method Mutate(m: Mutation, dht: bool) returns (ok: bool)
      modifies this, forwards, servers, active
      ensures (Now(), ok) == Apply(old(Now()), m, dht)
    {
      match m
      case SelectServer(name) => ok := Select(name, dht);
      case SetForwardOptions(_, _, _, _, _) => ok := SetOptions(m);
      case AddServer(_, _, _, _) => ok := AddProfile(m);
      case RemoveServer(name) => ok := RemoveProfile(name);
      case ConnectTo(name) => ok := ConnectNamed(name, dht);
      case AddForward(_, _, _, _, _, _) => ok := AddEntry(m);
      case RemoveForward(proto, port) => ok := RemoveEntry(proto, port);
      case AttachPeer(_, _, _, _, _, _) => ok := Attach(m);
      case DetachPeer(peerId, want) => ok := Detach(peerId, want);
      case _ => ok := ChangeBody(m, dht);
    }

    /** One exchange. Whatever it answers and wherever it is given up, a good state stays good,
        and a client that serves its forwards goes on doing so unless it abandons an add. */
    method Exchange(r: Request, dht: bool) returns (ok: bool)
      modifies this, forwards, servers, active
      ensures (Now(), ok) == Answer(old(Now()), r, dht)
      ensures Good(old(Now())) && Fair(old(Now()), r.m) ==> Good(Now())
      ensures Served(old(Now())) ==> (Served(Now()) <==> !Abandons(old(Now()), r, dht))
    {
      KeepsIfGood(Now(), r, dht);
      ok := Mutate(r.m, dht);
      if ok && r.inTime {
        Finish(AfterOf(Now(), r.m));
      }
    }

    /** What follows the save. */
    method Finish(a: After)
      modifies active
      ensures Now() == Follow(old(Now()), a)
    {
      match a
      case KickIfForwards => active.Kick();
      case ServeForwards => active.Serve();
      case _ =>
    }
  }

  lemma {:induction false} BootStaysGood(c: C.Config)
    requires Boot(c).Some?
    ensures C.Valid(c) && K.WellFormed(c) ==> Good(Boot(c).value)
  {
    if C.Valid(c) && K.WellFormed(c) {
      BootIsGood(c);
    }
  }

  lemma {:induction false} KeepsIfGood(c: Ctl, r: Request, dht: bool)
    ensures Good(c) && Fair(c, r.m) ==> Good(Answer(c, r, dht).0)
    ensures Served(c) ==> (Served(Answer(c, r, dht).0) <==> !Abandons(c, r, dht))
  {
    if Good(c) && Fair(c, r.m) {
      AnswerKeeps(c, r, dht);
    }
    if Served(c) {
      ServedIff(c, r, dht);
    }
  }
}
