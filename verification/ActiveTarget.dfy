/** The server, session body and peer slots a client should be running, with the claims that
    keep them from contending and the cancel that restarts the loop (`src/client.rs`). */
module ActiveTarget {
  import opened Base

  datatype Target = Target(name: string, addr: string, secret: string, credential: string,
                           discovery: Option<string>, transport: Transport)

  datatype DeviceConfig =
    | TapDevice(name: string, bridge: Option<string>)
    | TunDevice(name: string, exit: bool, exitStrict: bool)

  datatype PppoeRun = PppoeRun(tunName: string, defaultRoute: bool)

  /** The session body: one at a time, or none when idle or parked offline. */
  datatype RunMode = Idle | Forwards | Device(device: DeviceConfig) | Pppoe(name: string, config: PppoeRun) | Offline

  /** What a slot opens for its pairs. */
  datatype ProviderAdapter = ExitTun(device: string, iface: Option<string>) | SegmentTap(device: string, bridge: string)

  datatype SlotSpec =
    | Consumer(peerId: string, want: byte, device: string, exit: bool, exitStrict: bool)
    | Provider(bits: byte, adapter: ProviderAdapter, allow: seq<Bytes>)

  /** What only one holder may have: a named interface, or default routing. */
  datatype Claim = DeviceClaim(name: string) | DefaultRoute

  datatype Holder = SlotHolder(peerId: string, want: byte) | BodyHolder

  type Claims = seq<(Claim, Holder)>

  // ---------------------------------------------------------------- who claims what

  function HolderOf(s: SlotSpec): Holder {
    match s
    case Consumer(peerId, want, _, _, _) => SlotHolder(peerId, want)
    case Provider(bits, _, _) => SlotHolder("", bits)
  }

  function SlotClaims(s: SlotSpec): Claims {
    var h := HolderOf(s);
    match s
    case Consumer(_, _, device, exit, _) => [(DeviceClaim(device), h)] + if exit then [(DefaultRoute, h)] else []
    case Provider(_, ExitTun(device, _), _) => [(DeviceClaim(device), h)]
    case Provider(_, SegmentTap(device, bridge), _) => [(DeviceClaim(device), h), (DeviceClaim(bridge), h)]
  }

  function PeerClaims(slots: seq<SlotSpec>): Claims {
    if slots == [] then [] else PeerClaims(slots[..|slots| - 1]) + SlotClaims(slots[|slots| - 1])
  }

  function BodyClaims(m: RunMode): Claims {
    match m
    case Device(TunDevice(name, exit, _)) =>
      [(DeviceClaim(name), BodyHolder)] + if exit then [(DefaultRoute, BodyHolder)] else []
    case Device(TapDevice(name, bridge)) =>
      [(DeviceClaim(name), BodyHolder)]
      + (match bridge case Some(nic) => [(DeviceClaim(nic), BodyHolder)] case None => [])
    case Pppoe(_, config) =>
      [(DeviceClaim(config.tunName), BodyHolder)] + if config.defaultRoute then [(DefaultRoute, BodyHolder)] else []
    case _ => []
  }

  predicate Holds(cs: Claims, c: Claim) {
    exists i :: 0 <= i < |cs| && cs[i].0 == c
  }

  /** No resource is claimed twice. */
  predicate Distinct(cs: Claims) {
    forall i, j :: 0 <= i < j < |cs| ==> cs[i].0 != cs[j].0
  }

  /** Admission: nothing incoming is held. */
  predicate Admits(held: Claims, incoming: Claims) {
    forall i :: 0 <= i < |incoming| ==> !Holds(held, incoming[i].0)
  }

  /** Two slots inbound frames could not tell apart. */
  predicate SameIdentity(a: SlotSpec, b: SlotSpec) {
    match (a, b)
    case (Consumer(p, w, _, _, _), Consumer(q, v, _, _, _)) => p == q && w == v
    case (Provider(p, _, _), Provider(q, _, _)) => p == q
    case _ => false
  }

  predicate UniqueSlots(slots: seq<SlotSpec>) {
    forall i, j :: 0 <= i < j < |slots| ==> !SameIdentity(slots[i], slots[j])
  }

  function CountOnes(b: nat): nat {
    if b == 0 then 0 else b % 2 + CountOnes(b / 2)
  }

  /** Every provider offers one capability, whichever bit it is. */
  predicate OneBit(slots: seq<SlotSpec>) {
    forall i :: 0 <= i < |slots| && slots[i].Provider? ==> CountOnes(slots[i].bits) == 1
  }

  // ---------------------------------------------------------------- the shared state

  /** `cancel` numbers the cancel of the profile now up; `permits` are the cancels fired and
      not yet consumed, each holding one permit however often it was fired. */
  datatype Active = Active(target: Target, mode: RunMode, peers: seq<SlotSpec>, claims: Claims,
                           cancel: nat, permits: set<nat>)

  function New(target: Target): Active {
    Active(target, Idle, [], [], 0, {})
  }

  function Notify(s: Active): Active {
    s.(permits := s.permits + {s.cancel})
  }

  /** Boot: the whole slot set and the body are decided before anything opens. A body refused
      beside good slots has already replaced the cached claims; boot ends there. */
  function InitSlots(s: Active, peers: seq<SlotSpec>, mode: RunMode): (Active, bool) {
    var claims := PeerClaims(peers);
    if !UniqueSlots(peers) || !OneBit(peers) || !Distinct(claims) then (s, false)
    else if !Admits(claims, BodyClaims(mode)) then (s.(claims := claims), false)
    else (s.(peers := peers, claims := claims, mode := mode), true)
  }

  /** One slot per identity, and one consumer whatever peer it names. */
  predicate Clashes(held: SlotSpec, spec: SlotSpec) {
    (held.Consumer? && spec.Consumer?) || (held.Provider? && spec.Provider? && held.bits == spec.bits)
  }

  function AttachPeer(s: Active, spec: SlotSpec, boot: RunMode): (Active, bool) {
    var incoming := PeerClaims([spec]);
    var peers := s.peers + [spec];
    if exists i :: 0 <= i < |s.peers| && Clashes(s.peers[i], spec) then (s, false)
    else if !Distinct(PeerClaims(peers)) then (s, false)
    else if !Admits(BodyClaims(s.mode), incoming) || !Admits(BodyClaims(boot), incoming) then (s, false)
    else (Notify(s.(peers := peers, claims := PeerClaims(peers))), true)
  }

  predicate NamedBy(spec: SlotSpec, peerId: string, want: byte) {
    match spec
    case Consumer(peer, bit, _, _, _) => peer == peerId && bit == want
    case Provider(bits, _, _) => peerId == "" && bits == want
  }

  /** The slots an attach or detach does not name. */
  function Without(slots: seq<SlotSpec>, peerId: string, want: byte): seq<SlotSpec> {
    if slots == [] then []
    else
      Without(slots[..|slots| - 1], peerId, want)
      + if NamedBy(slots[|slots| - 1], peerId, want) then [] else [slots[|slots| - 1]]
  }

  function DetachPeer(s: Active, peerId: string, want: byte): (Active, bool) {
    var left := Without(s.peers, peerId, want);
    if |left| == |s.peers| then (s, false)
    else (Notify(s.(peers := left, claims := PeerClaims(left))), true)
  }

  function SwitchTo(s: Active, target: Target): Active {
    Notify(s.(target := target))
  }

  function SetMode(s: Active, mode: RunMode): (Active, bool) {
    if !Admits(s.claims, BodyClaims(mode)) then (s, false) else (Notify(s.(mode := mode)), true)
  }

  function Disconnect(s: Active): (Active, bool) {
    if s.mode.Offline? then (s, false) else (Notify(s.(mode := Offline)), true)
  }

  function Connect(s: Active, target: Option<Target>, boot: RunMode): (Active, bool) {
    if !(s.mode.Idle? || s.mode.Offline?) || !Admits(s.claims, BodyClaims(boot)) then (s, false)
    else
      var s := if target.Some? then s.(target := target.value) else s;
      (Notify(s.(mode := boot)), true)
  }

  function StopPppoe(s: Active, name: string, base: RunMode): (Active, bool) {
    if s.mode.Pppoe? && s.mode.name == name then (Notify(s.(mode := base)), true) else (s, false)
  }

  function ServeForwards(s: Active): Active {
    match s.mode
    case Idle => Notify(s.(mode := Forwards))
    case Forwards => Notify(s)
    case _ => s
  }

  function KickIfForwards(s: Active): Active {
    if s.mode.Forwards? then Notify(s) else s
  }

  // ---------------------------------------------------------------- what every mutator keeps

  /** Nothing contends: the slots with each other, nor the body with the slots; and the cached
      claims are what the slots claim. */
  predicate Admitted(s: Active) {
    && Distinct(PeerClaims(s.peers))
    && UniqueSlots(s.peers)
    && s.claims == PeerClaims(s.peers)
    && Admits(s.claims, BodyClaims(s.mode))
  }

  /** A body that opens nothing. */
  predicate ClaimFree(m: RunMode) {
    BodyClaims(m) == []
  }

  lemma {:induction false} AdmitsEither(a: Claims, b: Claims)
    ensures Admits(a, b) <==> forall i, j :: 0 <= i < |a| && 0 <= j < |b| ==> a[i].0 != b[j].0
  {
  }

  lemma {:induction false} ClaimsOfOne(spec: SlotSpec)
    ensures PeerClaims([spec]) == SlotClaims(spec)
  {
    assert [spec][..0] == [] && PeerClaims([spec]) == PeerClaims([]) + SlotClaims(spec);
  }

  lemma {:induction false} AdmitsWithMore(held: Claims, more: Claims, body: Claims)
    requires Admits(held, body) && Admits(body, more)
    ensures Admits(held + more, body)
  {
    AdmitsEither(held, body);
    AdmitsEither(body, more);
    AdmitsEither(held + more, body);
  }

  lemma {:induction false} AttachAdmitted(s: Active, spec: SlotSpec, boot: RunMode)
    requires Admitted(s)
    ensures Admitted(AttachPeer(s, spec, boot).0)
  {
    if AttachPeer(s, spec, boot).1 {
      var peers := s.peers + [spec];
      assert peers[..|peers| - 1] == s.peers;
      assert PeerClaims(peers) == PeerClaims(s.peers) + SlotClaims(spec);
      ClaimsOfOne(spec);
      AdmitsWithMore(PeerClaims(s.peers), SlotClaims(spec), BodyClaims(s.mode));
    }
  }

  /** What is left after a detach is part of what was there. */
  lemma {:induction false} WithoutClaims(slots: seq<SlotSpec>, peerId: string, want: byte)
    requires Distinct(PeerClaims(slots))
    ensures Distinct(PeerClaims(Without(slots, peerId, want)))
    ensures forall c :: Holds(PeerClaims(Without(slots, peerId, want)), c) ==> Holds(PeerClaims(slots), c)
    decreases |slots|
  {
    if slots != [] {
      var front, last := slots[..|slots| - 1], slots[|slots| - 1];
      var all, fore, more := PeerClaims(slots), PeerClaims(front), SlotClaims(last);
      assert all == fore + more;
      assert Distinct(fore) by {
        forall i, j | 0 <= i < j < |fore|
          ensures fore[i].0 != fore[j].0
        {
          assert all[i] == fore[i] && all[j] == fore[j];
        }
      }
      WithoutClaims(front, peerId, want);
      var left := PeerClaims(Without(front, peerId, want));
      HoldsSplit(fore, more);
      if NamedBy(last, peerId, want) {
        assert Without(slots, peerId, want) == Without(front, peerId, want);
      } else {
        var kept := Without(slots, peerId, want);
        assert kept[..|kept| - 1] == Without(front, peerId, want);
        assert PeerClaims(kept) == left + more;
        HoldsSplit(left, more);
        DistinctJoin(left, fore, more);
      }
    }
  }

  lemma {:induction false} HoldsSplit(a: Claims, b: Claims)
    ensures forall c :: Holds(a + b, c) <==> Holds(a, c) || Holds(b, c)
  {
    forall c
      ensures Holds(a + b, c) <==> Holds(a, c) || Holds(b, c)
    {
      if Holds(a, c) {
        var i :| 0 <= i < |a| && a[i].0 == c;
        assert (a + b)[i].0 == c;
      }
      if Holds(b, c) {
        var i :| 0 <= i < |b| && b[i].0 == c;
        assert (a + b)[|a| + i].0 == c;
      }
      if Holds(a + b, c) {
        var i :| 0 <= i < |a + b| && (a + b)[i].0 == c;
        assert if i < |a| then a[i].0 == c else b[i - |a|].0 == c;
      }
    }
  }

  lemma {:induction false} DistinctJoin(left: Claims, fore: Claims, more: Claims)
    requires Distinct(left) && Distinct(fore + more)
    requires forall c :: Holds(left, c) ==> Holds(fore, c)
    ensures Distinct(left + more)
  {
    var all := fore + more;
    forall i, j | 0 <= i < j < |left + more|
      ensures (left + more)[i].0 != (left + more)[j].0
    {
      if j >= |left| {
        assert (left + more)[j] == more[j - |left|] == all[|fore| + j - |left|];
        if i < |left| {
          assert Holds(left, left[i].0);
          var m :| 0 <= m < |fore| && fore[m].0 == left[i].0;
          assert all[m] == fore[m];
        } else {
          assert (left + more)[i] == more[i - |left|] == all[|fore| + i - |left|];
        }
      }
    }
  }

  lemma {:induction false} WithoutHas(slots: seq<SlotSpec>, peerId: string, want: byte, x: SlotSpec)
    ensures x in Without(slots, peerId, want) <==> x in slots && !NamedBy(x, peerId, want)
    decreases |slots|
  {
    if slots != [] {
      var front, last := slots[..|slots| - 1], slots[|slots| - 1];
      WithoutHas(front, peerId, want, x);
      assert slots == front + [last];
    }
  }

  lemma {:induction false} WithoutUnique(slots: seq<SlotSpec>, peerId: string, want: byte)
    requires UniqueSlots(slots)
    ensures UniqueSlots(Without(slots, peerId, want))
    ensures forall x :: x in Without(slots, peerId, want) <==> x in slots && !NamedBy(x, peerId, want)
    decreases |slots|
  {
    forall x
      ensures x in Without(slots, peerId, want) <==> x in slots && !NamedBy(x, peerId, want)
    {
      WithoutHas(slots, peerId, want, x);
    }
    if slots != [] {
      var front, last := slots[..|slots| - 1], slots[|slots| - 1];
      var left := Without(front, peerId, want);
      WithoutUnique(front, peerId, want);
      forall i | 0 <= i < |left|
        ensures !SameIdentity(left[i], last)
      {
        assert left[i] in front;
        var m :| 0 <= m < |front| && front[m] == left[i];
        assert slots[m] == left[i];
      }
    }
  }

  lemma {:induction false} DetachAdmitted(s: Active, peerId: string, want: byte)
    requires Admitted(s)
    ensures Admitted(DetachPeer(s, peerId, want).0)
  {
    WithoutClaims(s.peers, peerId, want);
    WithoutUnique(s.peers, peerId, want);
    assert Admits(PeerClaims(Without(s.peers, peerId, want)), BodyClaims(s.mode));
  }

  /** Telling the body about its forwards opens nothing. */
  lemma {:induction false} ForwardsAdmitted(s: Active)
    requires Admitted(s)
    ensures Admitted(ServeForwards(s)) && Admitted(KickIfForwards(s))
    ensures ServeForwards(s).peers == s.peers == KickIfForwards(s).peers
    ensures ServeForwards(s).target == s.target == KickIfForwards(s).target
  {
  }

  /** Everything the admin dispatcher, boot and the loop do to the shared state. */
  datatype Op =
    | OpAttach(spec: SlotSpec, boot: RunMode)
    | OpDetach(peerId: string, want: byte)
    | OpSwitch(target: Target)
    | OpSetMode(mode: RunMode)
    | OpDisconnect
    | OpConnect(to: Option<Target>, boot: RunMode)
    | OpStop(name: string, base: RunMode)
    | OpServe
    | OpKick

  function Do(s: Active, op: Op): (Active, bool) {
    match op
    case OpAttach(spec, boot) => AttachPeer(s, spec, boot)
    case OpDetach(peerId, want) => DetachPeer(s, peerId, want)
    case OpSwitch(target) => (SwitchTo(s, target), true)
    case OpSetMode(mode) => SetMode(s, mode)
    case OpDisconnect => Disconnect(s)
    case OpConnect(target, boot) => Connect(s, target, boot)
    case OpStop(name, base) => StopPppoe(s, name, base)
    case OpServe => (ServeForwards(s), true)
    case OpKick => (KickIfForwards(s), true)
  }

  /** `stop` installs its fallback unasked, so the fallback must open nothing. */
  predicate Sound(op: Op) {
    op.OpStop? ==> ClaimFree(op.base)
  }

  lemma {:induction false} DoAdmitted(s: Active, op: Op)
    requires Admitted(s) && Sound(op)
    ensures Admitted(Do(s, op).0)
  {
    match op
    case OpAttach(spec, boot) => AttachAdmitted(s, spec, boot);
    case OpDetach(peerId, want) => DetachAdmitted(s, peerId, want);
    case _ =>
  }

  function DoAll(s: Active, ops: seq<Op>): Active
    decreases |ops|
  {
    if ops == [] then s else DoAll(Do(s, ops[0]).0, ops[1..])
  }

  lemma {:induction false} EveryRunIsAdmitted(s: Active, ops: seq<Op>)
    requires Admitted(s) && forall i :: 0 <= i < |ops| ==> Sound(ops[i])
    ensures Admitted(DoAll(s, ops))
    decreases |ops|
  {
    if ops != [] {
      DoAdmitted(s, ops[0]);
      EveryRunIsAdmitted(Do(s, ops[0]).0, ops[1..]);
    }
  }

  /** Main result: from any boot the code admits, through every sequence of mutators, the
      slots' claims stay pairwise distinct and their identities unique, the body claims nothing
      a slot holds, and the cached claims are the slots' own. */
  lemma {:induction false} EveryBootRunIsAdmitted(target: Target, peers: seq<SlotSpec>, mode: RunMode, ops: seq<Op>)
    requires InitSlots(New(target), peers, mode).1
    requires forall i :: 0 <= i < |ops| ==> Sound(ops[i])
    ensures Admitted(DoAll(InitSlots(New(target), peers, mode).0, ops))
  {
    EveryRunIsAdmitted(InitSlots(New(target), peers, mode).0, ops);
  }

  // ---------------------------------------------------------------- what the claims come to

  /** A slot opens its interface; an exiting consumer takes over default routing and a segment
      provider holds the bridge it joins. */
  predicate SlotUses(s: SlotSpec, c: Claim) {
    match s
    case Consumer(_, _, device, exit, _) => c == DeviceClaim(device) || (exit && c == DefaultRoute)
    case Provider(_, ExitTun(device, _), _) => c == DeviceClaim(device)
    case Provider(_, SegmentTap(device, bridge), _) => c == DeviceClaim(device) || c == DeviceClaim(bridge)
  }

  predicate BodyUses(m: RunMode, c: Claim) {
    match m
    case Device(TunDevice(name, exit, _)) => c == DeviceClaim(name) || (exit && c == DefaultRoute)
    case Device(TapDevice(name, bridge)) => c == DeviceClaim(name) || (bridge.Some? && c == DeviceClaim(bridge.value))
    case Pppoe(_, config) => c == DeviceClaim(config.tunName) || (config.defaultRoute && c == DefaultRoute)
    case _ => false
  }

  /** A slot that does not contend with itself: a segment's device is not its own bridge. */
  predicate SlotStands(s: SlotSpec) {
    s.Provider? && s.adapter.SegmentTap? ==> s.adapter.device != s.adapter.bridge
  }

  ghost predicate SlotsApart(slots: seq<SlotSpec>) {
    && (forall i :: 0 <= i < |slots| ==> SlotStands(slots[i]))
    && (forall i, j, c :: 0 <= i < j < |slots| && SlotUses(slots[i], c) ==> !SlotUses(slots[j], c))
  }

  ghost predicate BodyApart(slots: seq<SlotSpec>, m: RunMode) {
    forall i, c :: 0 <= i < |slots| && SlotUses(slots[i], c) ==> !BodyUses(m, c)
  }

  lemma {:induction false} SlotClaimsAreUses(s: SlotSpec)
    ensures forall c :: Holds(SlotClaims(s), c) <==> SlotUses(s, c)
    ensures Distinct(SlotClaims(s)) <==> SlotStands(s)
  {
    var cs := SlotClaims(s);
    forall c
      ensures Holds(cs, c) <==> SlotUses(s, c)
    {
      if SlotUses(s, c) {
        assert cs[0].0 == c || cs[1].0 == c;
      }
    }
    if !SlotStands(s) {
      assert cs[0].0 == cs[1].0;
    }
  }

  lemma {:induction false} BodyClaimsAreUses(m: RunMode)
    ensures forall c :: Holds(BodyClaims(m), c) <==> BodyUses(m, c)
  {
    var cs := BodyClaims(m);
    forall c
      ensures Holds(cs, c) <==> BodyUses(m, c)
    {
      if BodyUses(m, c) {
        assert cs[0].0 == c || cs[1].0 == c;
      }
    }
  }

  lemma {:induction false} PeerClaimsAreUses(slots: seq<SlotSpec>)
    ensures forall c :: Holds(PeerClaims(slots), c) <==> exists i :: 0 <= i < |slots| && SlotUses(slots[i], c)
    decreases |slots|
  {
    if slots != [] {
      var n := |slots| - 1;
      PeerClaimsAreUses(slots[..n]);
      SlotClaimsAreUses(slots[n]);
      HoldsSplit(PeerClaims(slots[..n]), SlotClaims(slots[n]));
      forall c
        ensures Holds(PeerClaims(slots), c) <==> exists i :: 0 <= i < |slots| && SlotUses(slots[i], c)
      {
        if Holds(PeerClaims(slots[..n]), c) {
          var i :| 0 <= i < n && SlotUses(slots[..n][i], c);
          assert SlotUses(slots[i], c);
        }
        if exists i :: 0 <= i < |slots| && SlotUses(slots[i], c) {
          var i :| 0 <= i < |slots| && SlotUses(slots[i], c);
          assert i < n ==> SlotUses(slots[..n][i], c);
        }
      }
    }
  }

  lemma {:induction false} DistinctSplit(a: Claims, b: Claims)
    ensures Distinct(a + b) <==> Distinct(a) && Distinct(b) && forall c :: Holds(a, c) ==> !Holds(b, c)
  {
    var all := a + b;
    if Distinct(all) {
      forall i, j | 0 <= i < j < |a|
        ensures a[i].0 != a[j].0
      {
        assert all[i] == a[i] && all[j] == a[j];
      }
      forall i, j | 0 <= i < j < |b|
        ensures b[i].0 != b[j].0
      {
        assert all[|a| + i] == b[i] && all[|a| + j] == b[j];
      }
      forall c | Holds(a, c)
        ensures !Holds(b, c)
      {
        var i :| 0 <= i < |a| && a[i].0 == c;
        assert all[i] == a[i];
        assert forall j :: 0 <= j < |b| ==> all[|a| + j] == b[j];
      }
    }
    if Distinct(a) && Distinct(b) && forall c :: Holds(a, c) ==> !Holds(b, c) {
      forall i, j | 0 <= i < j < |all|
        ensures all[i].0 != all[j].0
      {
        if i < |a| <= j {
          assert all[i] == a[i] && all[j] == b[j - |a|];
          assert Holds(a, a[i].0);
        }
      }
    }
  }

  /** Claims are pairwise distinct exactly when no two slots use the same thing. */
  lemma {:induction false} DistinctIffApart(slots: seq<SlotSpec>)
    ensures Distinct(PeerClaims(slots)) <==> SlotsApart(slots)
    decreases |slots|
  {
    if slots != [] {
      var n := |slots| - 1;
      var front, last := slots[..n], slots[n];
      DistinctIffApart(front);
      DistinctSplit(PeerClaims(front), SlotClaims(last));
      PeerClaimsAreUses(front);
      SlotClaimsAreUses(last);
      ApartNext(front, last);
      assert front + [last] == slots;
    }
  }

  lemma {:induction false} ApartNext(front: seq<SlotSpec>, last: SlotSpec)
    ensures SlotsApart(front + [last]) <==>
            && SlotsApart(front) && SlotStands(last)
            && forall i, c :: 0 <= i < |front| && SlotUses(front[i], c) ==> !SlotUses(last, c)
  {
    var slots := front + [last];
    assert forall i :: 0 <= i < |front| ==> slots[i] == front[i];
    assert slots[|front|] == last;
  }

  /** Admission passes a body exactly when it uses nothing a slot does. */
  lemma {:induction false} AdmitsIffApart(slots: seq<SlotSpec>, m: RunMode)
    ensures Admits(PeerClaims(slots), BodyClaims(m)) <==> BodyApart(slots, m)
  {
    PeerClaimsAreUses(slots);
    BodyClaimsAreUses(m);
    var body := BodyClaims(m);
    if Admits(PeerClaims(slots), body) {
      forall i, c | 0 <= i < |slots| && SlotUses(slots[i], c)
        ensures !BodyUses(m, c)
      {
        assert Holds(PeerClaims(slots), c);
      }
    } else {
      var j :| 0 <= j < |body| && Holds(PeerClaims(slots), body[j].0);
      assert Holds(body, body[j].0);
    }
  }

  lemma {:induction false} NoOnes(b: nat)
    ensures CountOnes(b) == 0 <==> b == 0
  {
    if b > 0 {
      NoOnes(b / 2);
    }
  }

  lemma {:induction false} PowerHasOneBit(k: nat)
    ensures CountOnes(Pow2(k)) == 1
  {
    if k > 0 {
      PowerHasOneBit(k - 1);
      assert Pow2(k) / 2 == Pow2(k - 1) && Pow2(k) % 2 == 0;
    }
  }

  lemma {:induction false} OneBitIsPower(b: nat) returns (k: nat)
    requires CountOnes(b) == 1
    ensures b == Pow2(k)
  {
    if b % 2 == 1 {
      NoOnes(b / 2);
      k := 0;
    } else {
      var half := OneBitIsPower(b / 2);
      k := half + 1;
    }
  }

  /** One bit is set exactly in the powers of two. */
  lemma {:induction false} OneBitIff(b: nat)
    ensures CountOnes(b) == 1 <==> exists k: nat :: b == Pow2(k)
  {
    if CountOnes(b) == 1 {
      var k := OneBitIsPower(b);
    } else if k: nat :| b == Pow2(k) {
      PowerHasOneBit(k);
      assert false;
    }
  }

  /** Inbound frames tell the slots apart: consumers by peer and capability, providers by theirs. */
  predicate ToldApart(slots: seq<SlotSpec>) {
    forall i, j :: 0 <= i < j < |slots| ==>
      && (slots[i].Consumer? && slots[j].Consumer? ==>
            slots[i].peerId != slots[j].peerId || slots[i].want != slots[j].want)
      && (slots[i].Provider? && slots[j].Provider? ==> slots[i].bits != slots[j].bits)
  }

  ghost predicate PowersOfTwo(slots: seq<SlotSpec>) {
    forall i :: 0 <= i < |slots| && slots[i].Provider? ==> exists k: nat :: slots[i].bits == Pow2(k)
  }

  /** Main result: a slot set and a body are installed at boot exactly when the slots can be told
      apart, every provider has one capability and nothing is used twice. */
  lemma {:induction false} InitIff(s: Active, peers: seq<SlotSpec>, mode: RunMode)
    ensures var (s', ok) := InitSlots(s, peers, mode);
            && (ok <==> ToldApart(peers) && PowersOfTwo(peers) && SlotsApart(peers) && BodyApart(peers, mode))
            && (ok ==> s' == Active(s.target, mode, peers, PeerClaims(peers), s.cancel, s.permits))
  {
    DistinctIffApart(peers);
    AdmitsIffApart(peers, mode);
    assert UniqueSlots(peers) <==> ToldApart(peers);
    forall i | 0 <= i < |peers| && peers[i].Provider?
      ensures CountOnes(peers[i].bits) == 1 <==> exists k: nat :: peers[i].bits == Pow2(k)
    {
      OneBitIff(peers[i].bits);
    }
    assert OneBit(peers) <==> PowersOfTwo(peers);
  }

  /** And a slot beside a body likewise. */
  lemma {:induction false} SlotAdmittedIff(m: RunMode, spec: SlotSpec)
    ensures Admits(BodyClaims(m), PeerClaims([spec])) <==> forall c :: SlotUses(spec, c) ==> !BodyUses(m, c)
  {
    ClaimsOfOne(spec);
    SlotClaimsAreUses(spec);
    BodyClaimsAreUses(m);
    var slot := SlotClaims(spec);
    if Admits(BodyClaims(m), slot) {
      forall c | SlotUses(spec, c)
        ensures !BodyUses(m, c)
      {
        assert Holds(slot, c);
      }
    } else {
      var j :| 0 <= j < |slot| && Holds(BodyClaims(m), slot[j].0);
      assert Holds(slot, slot[j].0);
    }
  }

  /** Main result: so from any admitted boot, through every sequence of mutators, no interface and
      no default routing is used by two slots, or by a slot and the body. */
  lemma {:induction false} NothingIsUsedTwice(target: Target, peers: seq<SlotSpec>, mode: RunMode, ops: seq<Op>)
    requires InitSlots(New(target), peers, mode).1
    requires forall i :: 0 <= i < |ops| ==> Sound(ops[i])
    ensures var s := DoAll(InitSlots(New(target), peers, mode).0, ops);
            SlotsApart(s.peers) && BodyApart(s.peers, s.mode)
  {
    var s := DoAll(InitSlots(New(target), peers, mode).0, ops);
    EveryBootRunIsAdmitted(target, peers, mode, ops);
    DistinctIffApart(s.peers);
    AdmitsIffApart(s.peers, s.mode);
  }

  /** Why the fallback of `stop` must open nothing: it is the one body installed unasked, and
      the state stays admitted exactly when admission would have passed it. */
  lemma {:induction false} StopSkipsAdmission(s: Active, name: string, base: RunMode)
    requires Admitted(s) && s.mode.Pppoe? && s.mode.name == name
    ensures Admitted(StopPppoe(s, name, base).0) <==> Admits(s.claims, BodyClaims(base))
  {
  }

  /** A forwards or idle fallback always passes, */
  lemma {:induction false} PlainFallbacksPass(s: Active, name: string)
    requires Admitted(s)
    ensures Admitted(StopPppoe(s, name, Forwards).0) && Admitted(StopPppoe(s, name, Idle).0)
  {
  }

  /** and a device fallback need not: here, right after boot, it is the interface of a slot. */
  lemma {:induction false} DeviceFallbackContends(target: Target)
    ensures var slot := Consumer("a", PROVIDES_EXIT, "tun7", false, false);
            var (s, ok) := InitSlots(New(target), [slot], Pppoe("p", PppoeRun("ppp7", false)));
            ok && Admitted(s) && !Admitted(StopPppoe(s, "p", Device(TapDevice("tun7", None))).0)
  {
    var slot := Consumer("a", PROVIDES_EXIT, "tun7", false, false);
    ClaimsOfOne(slot);
    assert SlotClaims(slot) == [(DeviceClaim("tun7"), HolderOf(slot))];
    assert BodyClaims(Device(TapDevice("tun7", None)))[0].0 == SlotClaims(slot)[0].0;
  }

  /** A refused operation changes nothing at all, its permits included. */
  lemma {:induction false} RefusedChangesNothing(s: Active, op: Op)
    requires !Do(s, op).1
    ensures Do(s, op).0 == s
  {
  }

  // ---------------------------------------------------------------- the checks as loops

  /** `SlotClaims::new`: each claim against those before it. */
  method CheckDistinct(cs: Claims) returns (ok: bool)
    ensures ok <==> Distinct(cs)
  {
    var i := 0;
    while i < |cs|
      invariant 0 <= i <= |cs|
      invariant forall a, b :: 0 <= a < b < i ==> cs[a].0 != cs[b].0
    {
      var j := 0;
      while j < i
        invariant 0 <= j <= i
        invariant forall a :: 0 <= a < j ==> cs[a].0 != cs[i].0
      {
        if cs[j].0 == cs[i].0 {
          return false;
        }
        j := j + 1;
      }
      i := i + 1;
    }
    ok := true;
  }

  /** `SlotClaims::admit`: each incoming claim against those held. */
  method CheckAdmits(held: Claims, incoming: Claims) returns (ok: bool)
    ensures ok <==> Admits(held, incoming)
  {
    var i := 0;
    while i < |incoming|
      invariant 0 <= i <= |incoming|
      invariant forall k :: 0 <= k < i ==> !Holds(held, incoming[k].0)
    {
      var j := 0;
      while j < |held|
        invariant 0 <= j <= |held|
        invariant forall k :: 0 <= k < j ==> held[k].0 != incoming[i].0
      {
        if held[j].0 == incoming[i].0 {
          return false;
        }
        j := j + 1;
      }
      i := i + 1;
    }
    ok := true;
  }

  /** The claims of a slot set, gathered slot by slot. */
  method GatherClaims(slots: seq<SlotSpec>) returns (cs: Claims)
    ensures cs == PeerClaims(slots)
  {
    cs := [];
    var i := 0;
    while i < |slots|
      invariant 0 <= i <= |slots| && cs == PeerClaims(slots[..i])
    {
      assert slots[..i + 1][..i] == slots[..i];
      cs := cs + SlotClaims(slots[i]);
      i := i + 1;
    }
    assert slots[..i] == slots;
  }

  /** Whether some running slot stands in the way of another. */
  method FindClash(slots: seq<SlotSpec>, spec: SlotSpec) returns (found: bool)
    ensures found <==> exists i :: 0 <= i < |slots| && Clashes(slots[i], spec)
  {
    var i := 0;
    while i < |slots|
      invariant 0 <= i <= |slots|
      invariant forall k :: 0 <= k < i ==> !Clashes(slots[k], spec)
    {
      if Clashes(slots[i], spec) {
        return true;
      }
      i := i + 1;
    }
    found := false;
  }

  /** Slot identities, each against those before it; a provider offers exactly one capability. */
  method CheckIdentities(slots: seq<SlotSpec>) returns (ok: bool)
    ensures ok <==> UniqueSlots(slots) && OneBit(slots)
  {
    for i := 0 to |slots|
      invariant UniqueSlots(slots[..i]) && OneBit(slots[..i])
    {
      if slots[i].Provider? && CountOnes(slots[i].bits) != 1 {
        return false;
      }
      for j := 0 to i
        invariant forall k :: 0 <= k < j ==> !SameIdentity(slots[k], slots[i])
      {
        if SameIdentity(slots[j], slots[i]) {
          return false;
        }
      }
      assert forall k :: 0 <= k < i ==> slots[..i + 1][k] == slots[..i][k];
    }
    assert slots[..|slots|] == slots;
    ok := true;
  }

  method Retain(slots: seq<SlotSpec>, peerId: string, want: byte) returns (left: seq<SlotSpec>)
    ensures left == Without(slots, peerId, want)
  {
    left := [];
    for i := 0 to |slots|
      invariant left == Without(slots[..i], peerId, want)
    {
      assert slots[..i + 1][..i] == slots[..i];
      if !NamedBy(slots[i], peerId, want) {
        left := left + [slots[i]];
      }
    }
    assert slots[..|slots|] == slots;
  }

  /** The state under its lock. Each method is one locked section. */
  class SharedTarget {
    var target: Target
    var mode: RunMode
    var peers: seq<SlotSpec>
    var claims: Claims
    var cancel: nat
    var permits: set<nat>

    function Now(): Active
      reads this
    {
      Active(target, mode, peers, claims, cancel, permits)
    }

    constructor (t: Target)
      ensures Now() == New(t)
    {
      target, mode, peers, claims, cancel, permits := t, Idle, [], [], 0, {};
    }

    method Fire()
      modifies this`permits
      ensures Now() == Notify(old(Now()))
    {
      permits := permits + {cancel};
    }

    method Attach(spec: SlotSpec, boot: RunMode) returns (ok: bool)
      modifies this
      ensures (Now(), ok) == AttachPeer(old(Now()), spec, boot)
      ensures Admitted(old(Now())) ==> Admitted(Now())
    {
      AttachNeeds(Now(), spec, boot);
      var incoming := GatherClaims([spec]);
      var clash := FindClash(peers, spec);
      if clash {
        return false;
      }
      var more := peers + [spec];
      var all := GatherClaims(more);
      var apart := CheckDistinct(all);
      var beside := CheckAdmits(BodyClaims(mode), incoming);
      var later := CheckAdmits(BodyClaims(boot), incoming);
      if !apart || !beside || !later {
        return false;
      }
      claims, peers := all, more;
      Fire();
      ok := true;
    }

    method Detach(peerId: string, want: byte) returns (ok: bool)
      modifies this
      ensures (Now(), ok) == DetachPeer(old(Now()), peerId, want)
      ensures Admitted(old(Now())) ==> Admitted(Now())
    {
      DetachNeeds(Now(), peerId, want);
      var left := Retain(peers, peerId, want);
      if |left| == |peers| {
        return false;
      }
      peers := left;
      claims := GatherClaims(peers);
      Fire();
      ok := true;
    }

    method InstallMode(m: RunMode) returns (ok: bool)
      modifies this
      ensures (Now(), ok) == SetMode(old(Now()), m)
      ensures Admitted(old(Now())) ==> Admitted(Now())
    {
      ok := CheckAdmits(claims, BodyClaims(m));
      if ok {
        mode := m;
        Fire();
      }
    }

    method LeavePark(t: Option<Target>, boot: RunMode) returns (ok: bool)
      modifies this
      ensures (Now(), ok) == Connect(old(Now()), t, boot)
      ensures Admitted(old(Now())) ==> Admitted(Now())
    {
      if !(mode.Idle? || mode.Offline?) {
        return false;
      }
      ok := CheckAdmits(claims, BodyClaims(boot));
      if !ok {
        return;
      }
      if t.Some? {
        target := t.value;
      }
      mode := boot;
      Fire();
    }

    method Retarget(t: Target)
      modifies this
      ensures Now() == SwitchTo(old(Now()), t)
    {
      target := t;
      Fire();
    }

    method Park() returns (ok: bool)
      modifies this
      ensures (Now(), ok) == Disconnect(old(Now()))
      ensures Admitted(old(Now())) ==> Admitted(Now())
    {
      if mode.Offline? {
        return false;
      }
      mode := Offline;
      Fire();
      ok := true;
    }

    method Stop(name: string, base: RunMode) returns (ok: bool)
      modifies this
      ensures (Now(), ok) == StopPppoe(old(Now()), name, base)
    {
      if !(mode.Pppoe? && mode.name == name) {
        return false;
      }
      mode := base;
      Fire();
      ok := true;
    }

    method Serve()
      modifies this
      ensures Now() == ServeForwards(old(Now()))
    {
      if mode.Idle? {
        mode := Forwards;
        Fire();
      } else if mode.Forwards? {
        Fire();
      }
    }

    method Kick()
      modifies this`permits
      ensures Now() == KickIfForwards(old(Now()))
    {
      if mode.Forwards? {
        Fire();
      }
    }

    /** Boot: the slots and the body, or a refusal that sets neither. */
    method Init(slots: seq<SlotSpec>, m: RunMode) returns (ok: bool)
      modifies this
      ensures (Now(), ok) == InitSlots(old(Now()), slots, m)
      ensures ok ==> Admitted(Now())
    {
      ok := CheckIdentities(slots);
      if !ok {
        return;
      }
      var all := GatherClaims(slots);
      ok := CheckDistinct(all);
      if !ok {
        return;
      }
      claims := all;
      ok := CheckAdmits(claims, BodyClaims(m));
      if ok {
        peers, mode := slots, m;
      }
    }

    /** What the loop brings up, under a new cancel: `unused` has never been one. */
    method Begin(unused: nat) returns (t: Target, m: RunMode, slots: seq<SlotSpec>)
      modifies this`cancel
      ensures Now() == old(Now()).(cancel := unused) && t == target && m == mode && slots == peers
    {
      cancel := unused;
      t, m, slots := target, mode, peers;
    }
  }

  lemma {:induction false} AttachNeeds(s: Active, spec: SlotSpec, boot: RunMode)
    ensures Admitted(s) ==> Admitted(AttachPeer(s, spec, boot).0)
  {
    if Admitted(s) {
      AttachAdmitted(s, spec, boot);
    }
  }

  lemma {:induction false} DetachNeeds(s: Active, peerId: string, want: byte)
    ensures Admitted(s) ==> Admitted(DetachPeer(s, peerId, want).0)
  {
    if Admitted(s) {
      DetachAdmitted(s, peerId, want);
    }
  }
}
