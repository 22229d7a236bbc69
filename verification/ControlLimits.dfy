/** Inputs on which the dispatcher's edges show: a server added under the peer secret, a saved
    config the next boot refuses, and a forward declared but not served. */
module ControlLimits {
  import opened Base
  import opened Secret
  import C = Config
  import K = ConfigCodec
  import T = ActiveTarget
  import opened Control
  import opened ControlSafety

  /** One server with key `a`, the peer key `p`, and these forwards and sessions. */
  function Sample(a: Bytes, p: Bytes, fs: seq<C.Forward>, ps: seq<C.Pppoe>): C.Config {
    C.Config(None, Some(Encode(p)), None, None, [C.Server("home", "h:1", None, Encode(a), Encode(a), None, DialAuto)],
             fs, ps, None, None, None)
  }

  predicate Keys(a: Bytes, p: Bytes) {
    |a| == BYTE_LEN && |p| == BYTE_LEN && a != p
  }

  lemma {:induction false} HexHasNoControl(b: Bytes)
    ensures !HasControl(Encode(b))
  {
    if b != [] {
      HexHasNoControl(b[1..]);
      var s, rest := Encode(b), Encode(b[1..]);
      forall i | 0 <= i < |s|
        ensures !IsControl(s[i])
      {
        if i >= 2 {
          assert s[i] == rest[i - 2];
        }
      }
    }
  }

  lemma {:induction false} HostPort()
    ensures ValidHostPort("h:1") && !HasControl("h:1") && Lexable("h:1")
  {
    var s := "h:1";
    assert s[..2] == "h:" && LastColon("h:") == Some(1) && LastColon(s) == Some(1);
    assert s[2..] == "1" && "1"[..0] == "" && K.Digits("") == Some(0) && K.Digits("1") == Some(1);
  }

  lemma {:induction false} SampleIsValid(a: Bytes, p: Bytes, fs: seq<C.Forward>, ps: seq<C.Pppoe>)
    requires Keys(a, p) && C.DistinctForwards(fs) && K.ForwardsFit(fs)
    requires C.DistinctSessions(ps) && C.OneAutostart(ps) && K.PppoesFit(ps)
    ensures C.Valid(Sample(a, p, fs, ps)) && K.WellFormed(Sample(a, p, fs, ps))
  {
    DecodeOfEncode(a);
    DecodeOfEncode(p);
    HostPort();
    var c := Sample(a, p, fs, ps);
    assert C.KeysOk(c.servers[0], c.peerSecret) && C.DiscoveryOk(c.servers[0], c.servers, c.peerSecret);
    assert C.ServersOk(c.servers, c.peerSecret);
    assert K.ServerFits(c.servers[0]);
  }

  lemma {:induction false} SampleBoots(a: Bytes, p: Bytes, fs: seq<C.Forward>, ps: seq<C.Pppoe>)
    requires Keys(a, p)
    ensures var c := Sample(a, p, fs, ps);
            && Boot(c).Some? && Boot(c).value.cfg == c && Boot(c).value.active.peers == []
            && Boot(c).value.servers == Targets(c.servers) && Boot(c).value.hasPeerSecret
            && Boot(c).value.active.mode == DeriveMode(ForwardMap(fs), FallbackOf(c))
  {
  }

  /** `add_server` accepts the peer secret, and the config it leaves no longer passes `validate`. */
  lemma {:induction false} PeerSecretIsAccepted(a: Bytes, p: Bytes)
    requires Keys(a, p)
    ensures var cfg, m := Sample(a, p, [], []), AddServer("twin", "h:1", Encode(p), DialAuto);
            && C.Valid(cfg) && K.WellFormed(cfg) && Boot(cfg).Some? && Good(Boot(cfg).value)
            && AddServerIn(Boot(cfg).value, m).1 && !C.Valid(AddServerIn(Boot(cfg).value, m).0.cfg)
  {
    var cfg, m := Sample(a, p, [], []), AddServer("twin", "h:1", Encode(p), DialAuto);
    SampleIsValid(a, p, [], []);
    SampleBoots(a, p, [], []);
    BootIsGood(cfg);
    TwinIsAccepted(Boot(cfg).value, p);
    DecodeOfEncode(p);
    AddServerBootsIff(Boot(cfg).value, m);
  }

  lemma {:induction false} TwinIsAccepted(c: Ctl, p: Bytes)
    requires |p| == BYTE_LEN && |c.servers| == 1 && c.servers[0].name == "home" && c.servers[0].discovery.None?
    ensures AddServerIn(c, AddServer("twin", "h:1", Encode(p), DialAuto)).1
  {
    HexHasNoControl(p);
    HostPort();
    DecodeOfEncode(p);
    assert Normalize(Encode(p)) == Some(Encode(p));
    assert !HasControl("twin") && "twin" != "home";
    assert Find(c.servers, "twin") == None;
  }

  // ---------------------------------------------------------------- a saved config that does not boot

  const WEB: C.Forward := C.Forward(Tcp, 80, "h:1", false, None, true)
  const DSL: C.Pppoe := C.Pppoe("dsl", true, "u", Some("p"), None, "", 1492, true, true, false)

  /** Attach an exit through peer `q`, then remove the only forward. */
  function Cornering(q: Bytes): seq<Request> {
    [Request(AttachPeer(Encode(q), PROVIDES_EXIT, "", true, false, ""), true), Request(RemoveForward(Tcp, 80), true)]
  }

  lemma {:induction false} SlotIsAccepted(s: T.Active, spec: T.SlotSpec)
    requires spec.Consumer? && s.peers == [] && s.mode == T.Forwards
    ensures var (s', ok) := T.AttachPeer(s, spec, T.Forwards);
            ok && s'.mode == T.Forwards
  {
    T.ClaimsOfOne(spec);
    assert s.peers + [spec] == [spec];
    assert T.BodyClaims(T.Forwards) == [];
  }

  /** A client running forwards, whose boot falls back to a session wanting the default route. */
  predicate Cornerable(c: Ctl) {
    && c.hasPeerSecret && c.active.mode == T.Forwards && c.forwards.Keys == {(Tcp, 80)} && c.cfg.peer == None
    && c.fallback == T.Pppoe("dsl", T.PppoeRun(PPPOE_TUN_NAME, true))
  }

  lemma {:induction false} AttachIsAccepted(c: Ctl, q: Bytes)
    requires |q| == BYTE_LEN && Cornerable(c) && c.active.peers == []
    ensures var m := AttachPeer(Encode(q), PROVIDES_EXIT, "", true, false, "");
            var (c', ok) := AttachPeerIn(c, m);
            ok && c'.cfg.tun == Some(ConsumerRecord(m)) && Cornerable(c')
  {
    var m := AttachPeer(Encode(q), PROVIDES_EXIT, "", true, false, "");
    HexHasNoControl(q);
    DecodeOfEncode(q);
    assert AttachFields(m) && AttachPeerIn(c, m) == AttachConsumerIn(c, m);
    assert (Tcp, 80) in c.forwards && BootMode(c) == T.Forwards;
    SlotIsAccepted(c.active, ConsumerSlot(ConsumerRecord(m)));
  }

  lemma {:induction false} CornerRun(c: Ctl, q: Bytes)
    requires |q| == BYTE_LEN && Good(c) && Cornerable(c) && c.active.peers == []
    ensures FairRun(c, Cornering(q), false)
    ensures var c' := AnswerAll(c, Cornering(q), false); C.Valid(c'.cfg) && Boot(c'.cfg) == None
  {
    var rs := Cornering(q);
    CornerBegins(c, q);
    var c1 := Answer(c, rs[0], false).0;
    CornerEnds(c1, ConsumerRecord(rs[0].m));
    TwoExchanges(c, rs[0], rs[1], false);
    assert Fair(c, rs[0].m) && Fair(c1, rs[1].m);
    assert AnswerAll(c, rs, false) == Answer(c1, rs[1], false).0;
  }

  lemma {:induction false} CornerBegins(c: Ctl, q: Bytes)
    requires |q| == BYTE_LEN && Good(c) && Cornerable(c) && c.active.peers == []
    ensures var r := Cornering(q)[0];
            var c' := Answer(c, r, false).0;
            Good(c') && Cornerable(c') && c'.cfg.tun == Some(ConsumerRecord(r.m))
  {
    var r := Cornering(q)[0];
    AttachIsAccepted(c, q);
    assert Apply(c, r.m, false) == AttachPeerIn(c, r.m);
    AnswerKeeps(c, r, false);
  }

  lemma {:induction false} TwoExchanges(c: Ctl, r: Request, r': Request, dht: bool)
    ensures AnswerAll(c, [r, r'], dht) == Answer(Answer(c, r, dht).0, r', dht).0
    ensures FairRun(c, [r, r'], dht) <==> Fair(c, r.m) && Fair(Answer(c, r, dht).0, r'.m)
  {
    assert [r, r'][1..] == [r'] && [r'][1..] == [];
    var c1 := Answer(c, r, dht).0;
    assert AnswerAll(c1, [r'], dht) == Answer(c1, r', dht).0;
    assert FairRun(c1, [r'], dht) <==> Fair(c1, r'.m);
  }

  lemma {:induction false} CornerEnds(c: Ctl, t: C.Tun)
    requires Good(c) && Cornerable(c) && c.cfg.tun == Some(t) && t.exitVia.Some? && t.exit
    ensures var c' := Answer(c, Request(RemoveForward(Tcp, 80), true), false).0;
            C.Valid(c'.cfg) && Boot(c'.cfg) == None
  {
    var r := Request(RemoveForward(Tcp, 80), true);
    var c' := Answer(c, r, false).0;
    assert Apply(c, r.m, false) == RemoveForwardIn(c, (Tcp, 80));
    AnswerKeeps(c, r, false);
    assert c'.forwards == map[];
    CornerIsTight(c', t);
    NextBootIff(c');
  }

  /** Two accepted mutations after which every rule of `validate` holds and no boot succeeds: the
      session that takes the forwards' place at boot wants the default route the slot holds. */
  lemma {:induction false} SavedConfigDoesNotBoot(a: Bytes, p: Bytes, q: Bytes)
    requires Keys(a, p) && |q| == BYTE_LEN
    ensures var cfg := Sample(a, p, [WEB], [DSL]);
            && C.Valid(cfg) && K.WellFormed(cfg) && Boot(cfg).Some? && FairRun(Boot(cfg).value, Cornering(q), false)
            && var c := AnswerAll(Boot(cfg).value, Cornering(q), false);
               C.Valid(c.cfg) && Boot(c.cfg) == None
  {
    var cfg := Sample(a, p, [WEB], [DSL]);
    HostPort();
    SampleIsValid(a, p, [WEB], [DSL]);
    SampleBoots(a, p, [WEB], [DSL]);
    BootIsGood(cfg);
    CornerStarts(a, p);
    CornerRun(Boot(cfg).value, q);
  }

  lemma {:induction false} CornerStarts(a: Bytes, p: Bytes)
    requires Keys(a, p)
    ensures Boot(Sample(a, p, [WEB], [DSL])).Some? && Cornerable(Boot(Sample(a, p, [WEB], [DSL])).value)
  {
    SampleBoots(a, p, [WEB], [DSL]);
    assert [WEB][..0] == [] && ForwardMap([WEB]) == map[(Tcp, 80) := FwdOf(WEB)];
    assert (Tcp, 80) in ForwardMap([WEB]) && Autostart([DSL]) == Some(DSL);
  }

  lemma {:induction false} CornerIsTight(c: Ctl, t: C.Tun)
    requires c.cfg.tun == Some(t) && t.exitVia.Some? && t.exit && c.cfg.peer == None
    requires c.forwards == map[] && c.fallback == T.Pppoe("dsl", T.PppoeRun(PPPOE_TUN_NAME, true))
    ensures PeerSlots(c.cfg.tun, c.cfg.peer).Some?
    ensures !T.Admits(T.PeerClaims(PeerSlots(c.cfg.tun, c.cfg.peer).value), T.BodyClaims(BootMode(c)))
  {
    var spec := ConsumerSlot(t);
    assert PeerSlots(c.cfg.tun, c.cfg.peer) == Some([spec]);
    T.ClaimsOfOne(spec);
    assert T.SlotClaims(spec)[1].0 == T.DefaultRoute;
    assert T.BodyClaims(BootMode(c))[1].0 == T.DefaultRoute;
  }

  // ---------------------------------------------------------------- a forward nobody serves

  /** An idle client given an add whose exchange times out in the save: the forward is declared,
      live and saved, and the client stays idle. */
  lemma {:induction false} TimedOutAddIsNotServed(a: Bytes, p: Bytes)
    requires Keys(a, p)
    ensures var c0, r := Boot(Sample(a, p, [], [])), Request(AddForward(Tcp, 80, "h:1", false, 0, true), false);
            && c0.Some? && Served(c0.value) && Answer(c0.value, r, false).1
            && var c := Answer(c0.value, r, false).0;
               (Tcp, 80) in c.forwards && c.active.mode == T.Idle && !Served(c)
  {
    SampleBoots(a, p, [], []);
    HostPort();
    var c0, r := Boot(Sample(a, p, [], [])).value, Request(AddForward(Tcp, 80, "h:1", false, 0, true), false);
    assert Apply(c0, r.m, false) == AddForwardIn(c0, r.m);
  }
}
