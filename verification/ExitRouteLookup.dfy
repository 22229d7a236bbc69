/** Where a packet goes: which routes of a table match an address, and what every table of a
    guard's life does with every address. */
module ExitRouteLookup {
  import opened Base
  import opened ExitRoutes
  import opened ExitRouteSafety
  import opened ExitRouteLimits

  const V4_BITS: nat := 32
  const V6_BITS: nat := 128

  /** Two addresses agree in their leading bits. */
  predicate SamePrefix(a: nat, b: nat, prefix: nat, bits: nat) {
    prefix <= bits && a / Pow2(bits - prefix) == b / Pow2(bits - prefix)
  }

  predicate Matches(r: Route, addr: nat) {
    r.V4? && SamePrefix(addr, r.dst, r.prefix, V4_BITS)
  }

  predicate Matches6(r: Route, addr: nat) {
    r.V6? && SamePrefix(addr, r.dst, r.prefix, V6_BITS)
  }

  /** A route the kernel may take for an address: none that matches has a longer prefix. */
  ghost predicate Chosen(t: Table, addr: nat, r: Route) {
    r in t && Matches(r, addr) && forall q :: q in t && Matches(q, addr) ==> q.prefix <= r.prefix
  }

  // ---------------------------------------------------------------- powers of two

  lemma {:induction false} Pow2Adds(a: nat, b: nat)
    ensures Pow2(a + b) == Pow2(a) * Pow2(b)
  {
    if a > 0 {
      Pow2Adds(a - 1, b);
    }
  }

  lemma {:induction false} Pow2Known()
    ensures Pow2(0) == 1 && Pow2(31) == 0x8000_0000 && Pow2(32) == U32_LIMIT
    ensures Pow2(127) == V6_UPPER && Pow2(128) == 2 * V6_UPPER
  {
    assert Pow2(1) == 2 && Pow2(2) == 4 && Pow2(3) == 8 && Pow2(4) == 16;
    Pow2Adds(4, 4);
    assert Pow2(8) == 256;
    Pow2Adds(8, 8);
    assert Pow2(16) == 0x1_0000;
    Pow2Adds(16, 16);
    assert Pow2(32) == 2 * Pow2(31);
    Pow2Adds(32, 32);
    assert Pow2(64) == U64_LIMIT;
    Pow2Adds(64, 64);
    assert Pow2(128) == 2 * Pow2(127);
  }

  // ---------------------------------------------------------------- what each route matches

  /** A route as the kernel takes it: no bit of its address behind its prefix. */
  predicate IsNetwork(r: Route) {
    match r
    case V4(dst, prefix, _, _, _) => prefix <= V4_BITS && dst % Pow2(V4_BITS - prefix) == 0
    case V6(dst, prefix) => prefix <= V6_BITS && dst % Pow2(V6_BITS - prefix) == 0
  }

  /** Of the two halves exactly one matches an address, the one its top bit names; it leads into
      the tunnel, at the best priority. */
  lemma {:induction false} HalvesSplit(addr: nat, upper: bool, tun: string)
    requires addr < U32_LIMIT
    ensures Matches(Half(upper, tun), addr) <==> upper == (addr >= 0x8000_0000)
    ensures Half(upper, tun).dev == tun && Half(upper, tun).gw == None
    ensures Half(upper, tun).metric == 0 && IsNetwork(Half(upper, tun))
  {
    Pow2Known();
  }

  lemma {:induction false} HalvesSplit6(addr: nat, upper: bool)
    requires addr < 2 * V6_UPPER
    ensures Matches6(V6Half(upper), addr) <==> upper == (addr >= V6_UPPER)
    ensures IsNetwork(V6Half(upper))
  {
    Pow2Known();
  }

  /** A default matches everything, */
  lemma {:induction false} DefaultMatches(r: Route, addr: nat)
    requires IsDefault(r) && addr < U32_LIMIT
    ensures Matches(r, addr)
  {
    Pow2Known();
  }

  /** and a pin its own address alone, by way of the uplink it was planned on. */
  lemma {:induction false} PinMatchesItsAddress(pin: UplinkPin, addr: nat)
    ensures Matches(PinRoute(pin), addr) <==> addr == pin.addr
    ensures PinRoute(pin).dev == pin.iface && PinRoute(pin).metric == 0 && IsNetwork(PinRoute(pin))
    ensures PinRoute(pin).gw == if pin.ViaGateway? then Some(pin.gateway) else None
  {
    Pow2Known();
    assert addr / 1 == addr && pin.addr / 1 == pin.addr;
  }

  /** However the server moves, the pin follows it by the same uplink. */
  lemma {:induction false} PinKeepsItsUplink(pin: UplinkPin, redials: seq<Dial>)
    ensures var last := LastPin(pin, redials);
            && last.addr == (if redials == [] then pin.addr else redials[|redials| - 1].server)
            && last.iface == pin.iface && (last.ViaGateway? <==> pin.ViaGateway?)
            && (pin.ViaGateway? ==> last.gateway == pin.gateway)
    decreases |redials|
  {
    if redials != [] {
      PinKeepsItsUplink(Moved(pin, redials[0]), redials[1..]);
    }
  }

  /** A default read from the table names the route it was read from. */
  lemma {:induction false} CaptureNamesItsRoute(gw: Option<nat>, dev: string, metric: nat)
    requires gw != Some(0)
    ensures DefaultRoute(Captured(if gw.None? then 0 else gw.value, dev, metric)) == V4(0, 0, gw, dev, metric)
  {
  }

  // ---------------------------------------------------------------- every table of a life

  /** Main result: whatever step is refused and however the guard is redialled, in every table of
      its life every IPv4 address has a route. */
  lemma {:induction false} EveryAddressIsRouted(
      t0: Table, pin: UplinkPin, tun: string, strict: Option<seq<Captured>>, faults: seq<bool>,
      strictFaults: seq<bool>, redials: seq<Dial>, t: Table, addr: nat)
    requires HasDefault(t0) && addr < U32_LIMIT
    requires WorstFirst(Defaults(strict)) && AllCaptured(t0, Defaults(strict))
    requires t in Tables(Lived(t0, pin, tun, strict, faults, strictFaults, redials))
    ensures exists r :: r in t && Matches(r, addr)
  {
    EveryTableIsSafe(t0, pin, tun, strict, faults, strictFaults, redials, t);
    if HasDefault(t) {
      var r :| r in t && IsDefault(r);
      DefaultMatches(r, addr);
    } else {
      var upper := addr >= 0x8000_0000;
      HalvesSplit(addr, upper, tun);
      assert Half(upper, tun) in t;
    }
  }

  /** The tables of a set that is up: the one it stands on and those of its redials. */
  predicate Stands(t0: Table, l: Life, t: Table) {
    l.ok && (t == Stood(t0, l) || t in l.dials)
  }

  lemma {:induction false} StandingHalves(
      t0: Table, pin: UplinkPin, tun: string, strict: Option<seq<Captured>>, faults: seq<bool>,
      strictFaults: seq<bool>, redials: seq<Dial>, t: Table)
    requires Stands(t0, Lived(t0, pin, tun, strict, faults, strictFaults, redials), t)
    ensures Half(false, tun) in t && Half(true, tun) in t
    ensures var l := Lived(t0, pin, tun, strict, faults, strictFaults, redials);
            forall r | !IsPin(r) :: r in t <==> r in Stood(t0, l)
  {
    var l := Lived(t0, pin, tun, strict, faults, strictFaults, redials);
    StandsWithHalves(t0, pin, tun, strict, faults, strictFaults, redials);
    DialsMovePins(Stood(t0, l), pin, redials);
  }

  /** Main result: while the set stands, every IPv4 address has a route into the tunnel, and no
      default is ever chosen for it. */
  lemma {:induction false} StandingSetCarriesAll(
      t0: Table, pin: UplinkPin, tun: string, strict: Option<seq<Captured>>, faults: seq<bool>,
      strictFaults: seq<bool>, redials: seq<Dial>, t: Table, addr: nat)
    requires Stands(t0, Lived(t0, pin, tun, strict, faults, strictFaults, redials), t) && addr < U32_LIMIT
    ensures exists r :: r in t && Matches(r, addr) && r.dev == tun && r.gw == None && r.prefix > 0
    ensures forall r :: Chosen(t, addr, r) ==> !IsDefault(r)
  {
    StandingHalves(t0, pin, tun, strict, faults, strictFaults, redials, t);
    var upper := addr >= 0x8000_0000;
    HalvesSplit(addr, upper, tun);
    assert Half(upper, tun) in t && Half(upper, tun).prefix > 0;
  }

  /** A table that holds the pin chooses a host route for the server, and what it chooses for any
      other address does not hang on the pin. */
  lemma {:induction false} PinKeepsTheServer(t: Table, pin: UplinkPin, addr: nat, r: Route)
    requires PinRoute(pin) in t && Chosen(t, addr, r)
    ensures addr == pin.addr ==> r.prefix == V4_BITS
    ensures addr != pin.addr ==> r != PinRoute(pin) && Chosen(t - {PinRoute(pin)}, addr, r)
  {
    PinMatchesItsAddress(pin, addr);
  }

  lemma {:induction false} StrictUpHolds6(t: Table, ds: seq<Captured>, upper: bool)
    ensures V6Half(upper) in Effect(t, StrictChanges(ds, true))
  {
    var cs := StrictChanges(ds, true);
    assert cs[0].route == V6Half(false) && cs[1].route == V6Half(true);
    EffectOn(t, cs, V6Half(upper), true);
  }

  lemma {:induction false} StrictStands6(t1: Table, ds: seq<Captured>, faults: seq<bool>, upper: bool)
    requires Climb(t1, StrictChanges(ds, true), faults, false).1
    ensures V6Half(upper) in Latest(t1, Climb(t1, StrictChanges(ds, true), faults, false).0)
  {
    ClimbTables(t1, StrictChanges(ds, true), faults, false);
    StrictUpHolds6(t1, ds, upper);
  }

  /** Main result: while a strict set stands, every IPv6 address has a route to loopback longer
      than any default. */
  lemma {:induction false} StrictSetStopsV6(
      t0: Table, pin: UplinkPin, tun: string, ds: seq<Captured>, faults: seq<bool>,
      strictFaults: seq<bool>, redials: seq<Dial>, t: Table, addr: nat)
    requires Stands(t0, Lived(t0, pin, tun, Some(ds), faults, strictFaults, redials), t) && addr < 2 * V6_UPPER
    ensures exists r :: r in t && Matches6(r, addr) && r.prefix > 0
  {
    var l := Lived(t0, pin, tun, Some(ds), faults, strictFaults, redials);
    var t1 := Latest(t0, Climb(t0, BaseChanges(pin, tun, true), faults, true).0);
    var upper := addr >= V6_UPPER;
    StandingHalves(t0, pin, tun, Some(ds), faults, strictFaults, redials, t);
    StrictStands6(t1, ds, strictFaults, upper);
    assert l.tight != [] && Stood(t0, l) == Latest(t1, l.tight);
    HalvesSplit6(addr, upper);
    assert V6Half(upper) in t && V6Half(upper).prefix > 0;
  }
}
