/** Exit-mode route guards: bring-up, redial pins and teardown over a kernel route table
    whose bring-up steps may be refused (`src/exitroute.rs`, `src/route.rs`). */
module ExitRoutes {
  import opened Base

  /** An IPv4 route at a fib priority, or an IPv6 route on loopback. Addresses are numbers. */
  datatype Route =
    | V4(dst: nat, prefix: nat, gw: Option<nat>, dev: string, metric: nat)
    | V6(dst: nat, prefix: nat)

  type Table = set<Route>

  datatype Change = Change(add: bool, route: Route)

  datatype Answer = Done | Exists | Missing | Refused

  /** One route ioctl. The kernel keys a route on all of its fields; a refusal changes nothing. */
  function Apply(t: Table, c: Change, refused: bool): (Table, Answer) {
    if refused then (t, Refused)
    else if c.add then (if c.route in t then (t, Exists) else (t + {c.route}, Done))
    else (if c.route in t then (t - {c.route}, Done) else (t, Missing))
  }

  // ---------------------------------------------------------------- what the guards program

  /** Where a server's host route leads. */
  datatype UplinkPin =
    | ViaGateway(addr: nat, gateway: nat, iface: string)
    | OnLink(addr: nat, iface: string)

  function PinRoute(pin: UplinkPin): Route {
    match pin
    case ViaGateway(addr, gateway, iface) => V4(addr, 32, Some(gateway), iface, 0)
    case OnLink(addr, iface) => V4(addr, 32, None, iface, 0)
  }

  /** The two halves that cover IPv4, and the two that cover IPv6. */
  function Half(upper: bool, tun: string): Route {
    V4(if upper then 0x8000_0000 else 0, 1, None, tun, 0)
  }

  const V6_UPPER: nat := 0x8000_0000_0000_0000_0000_0000_0000_0000

  function V6Half(upper: bool): Route {
    V6(if upper then V6_UPPER else 0, 1)
  }

  /** A default route as read from the table; a zero gateway means it had none. */
  datatype Captured = Captured(gateway: nat, iface: string, metric: nat)

  function DefaultAt(d: Captured, metric: nat): Route {
    V4(0, 0, if d.gateway == 0 then None else Some(d.gateway), d.iface, metric)
  }

  /** The captured route itself. */
  function DefaultRoute(d: Captured): Route {
    DefaultAt(d, d.metric)
  }

  const MAX_PRIORITY: nat := 32_766

  /** The route an ioctl for `d` names: the request carries the priority plus one in a
      16-bit field that saturates at 32767. */
  function Addressed(d: Captured): Route {
    DefaultAt(d, if d.metric > MAX_PRIORITY then MAX_PRIORITY else d.metric)
  }

  /** The base set in bring-up order, the pin first. */
  function BaseChanges(pin: UplinkPin, tun: string, add: bool): seq<Change> {
    [Change(add, PinRoute(pin)), Change(add, Half(false, tun)), Change(add, Half(true, tun))]
  }

  /** One change per captured default, in order. */
  function DefaultChanges(ds: seq<Captured>, add: bool): (cs: seq<Change>)
    ensures |cs| == |ds| && forall i :: 0 <= i < |cs| ==> cs[i] == Change(add, Addressed(ds[i]))
  {
    if ds == [] then [] else [Change(add, Addressed(ds[0]))] + DefaultChanges(ds[1..], add)
  }

  /** The strict set in bring-up order: the IPv6 halves in, then the defaults out. */
  function StrictChanges(ds: seq<Captured>, up: bool): seq<Change> {
    [Change(up, V6Half(false)), Change(up, V6Half(true))] + DefaultChanges(ds, !up)
  }

  function Reversed<T>(s: seq<T>): (r: seq<T>)
    ensures |r| == |s| && forall i :: 0 <= i < |r| ==> r[i] == s[|s| - 1 - i]
  {
    if s == [] then [] else Reversed(s[1..]) + [s[0]]
  }

  // ---------------------------------------------------------------- running changes

  function Latest(t: Table, trace: seq<Table>): Table {
    if trace == [] then t else trace[|trace| - 1]
  }

  /** Teardown: every change in turn, its answer ignored. The tables after each. */
  function Sweep(t: Table, cs: seq<Change>): seq<Table>
    decreases |cs|
  {
    if cs == [] then []
    else
      var t' := Apply(t, cs[0], false).0;
      [t'] + Sweep(t', cs[1..])
  }

  predicate Fatal(a: Answer, lenient: bool) {
    !(a == Done || (lenient && a == Exists))
  }

  /** Bring-up: changes in turn until one fails. `faults[i]` refuses the i-th; a lenient
      bring-up counts an existing route as held. */
  function Climb(t: Table, cs: seq<Change>, faults: seq<bool>, lenient: bool): (seq<Table>, bool)
    decreases |cs|
  {
    if cs == [] then ([], true)
    else
      var (t', a) := Apply(t, cs[0], faults != [] && faults[0]);
      if Fatal(a, lenient) then ([t'], false)
      else
        var (rest, ok) := Climb(t', cs[1..], if faults == [] then [] else faults[1..], lenient);
        ([t'] + rest, ok)
  }

  function WithAddr(pin: UplinkPin, server: nat): UplinkPin {
    match pin
    case ViaGateway(_, gateway, iface) => ViaGateway(server, gateway, iface)
    case OnLink(_, iface) => OnLink(server, iface)
  }

  /** One redial: the pin moves when the server's address did, then is asserted. */
  datatype Dial = Dial(server: nat, refused: bool)

  function Moved(pin: UplinkPin, d: Dial): UplinkPin {
    if pin.addr == d.server then pin else WithAddr(pin, d.server)
  }

  function DialTables(t: Table, pin: UplinkPin, d: Dial): (seq<Table>, Answer) {
    var pin' := Moved(pin, d);
    if pin.addr == d.server then
      var (t', a) := Apply(t, Change(true, PinRoute(pin')), d.refused);
      ([t'], a)
    else
      var gone := Apply(t, Change(false, PinRoute(pin)), false).0;
      var (t', a) := Apply(gone, Change(true, PinRoute(pin')), d.refused);
      ([gone, t'], a)
  }

  function Dials(t: Table, pin: UplinkPin, ds: seq<Dial>): (seq<Table>, UplinkPin)
    decreases |ds|
  {
    if ds == [] then ([], pin)
    else
      var here := DialTables(t, pin, ds[0]).0;
      var (rest, last) := Dials(Latest(t, here), Moved(pin, ds[0]), ds[1..]);
      (here + rest, last)
  }

  /** Every table a guard's life passes through, in order: the base bring-up, the strict
      bring-up on top, the redials, and the teardown of whatever was built. */
  datatype Life = Life(up: seq<Table>, tight: seq<Table>, dials: seq<Table>, down: seq<Table>, ok: bool)

  function BaseDown(pin: UplinkPin, tun: string): seq<Change> {
    Reversed(BaseChanges(pin, tun, false))
  }

  function StrictDown(ds: seq<Captured>): seq<Change> {
    Reversed(StrictChanges(ds, false))
  }

  /** A life whose base stands on `t1`, without a strict set. */
  function BaseLife(up: seq<Table>, t1: Table, pin: UplinkPin, tun: string, redials: seq<Dial>): Life {
    var (dials, last) := Dials(t1, pin, redials);
    Life(up, [], dials, Sweep(Latest(t1, dials), BaseDown(last, tun)), true)
  }

  /** A life whose base stands on `t1` and whose strict set is started over it. */
  function StrictLife(up: seq<Table>, t1: Table, pin: UplinkPin, tun: string, ds: seq<Captured>,
                      faults: seq<bool>, redials: seq<Dial>): Life {
    var (tight, ok) := Climb(t1, StrictChanges(ds, true), faults, false);
    var t2 := Latest(t1, tight);
    if !ok then Life(up, tight, [], Sweep(t2, StrictDown(ds) + BaseDown(pin, tun)), false)
    else
      var (dials, last) := Dials(t2, pin, redials);
      Life(up, tight, dials, Sweep(Latest(t2, dials), StrictDown(ds) + BaseDown(last, tun)), true)
  }

  /** A whole life over table `t`: `strict` holds the captured defaults in deletion order;
      `faults` and `strictFaults` refuse bring-up steps. */
  function Lived(t: Table, pin: UplinkPin, tun: string, strict: Option<seq<Captured>>,
                 faults: seq<bool>, strictFaults: seq<bool>, redials: seq<Dial>): Life {
    var (up, based) := Climb(t, BaseChanges(pin, tun, true), faults, true);
    var t1 := Latest(t, up);
    if !based then Life(up, [], [], Sweep(t1, BaseDown(pin, tun)), false)
    else
      match strict
      case None => BaseLife(up, t1, pin, tun, redials)
      case Some(ds) => StrictLife(up, t1, pin, tun, ds, strictFaults, redials)
  }

  // ---------------------------------------------------------------- what changes do to a table

  function Put(t: Table, c: Change): Table {
    if c.add then t + {c.route} else t - {c.route}
  }

  function Effect(t: Table, cs: seq<Change>): Table
    decreases |cs|
  {
    if cs == [] then t else Effect(Put(t, cs[0]), cs[1..])
  }

  predicate Names(cs: seq<Change>, r: Route) {
    exists i :: 0 <= i < |cs| && cs[i].route == r
  }

  /** Changes that agree about `r` decide it; changes that never name it leave it alone. */
  lemma {:induction false} EffectOn(t: Table, cs: seq<Change>, r: Route, add: bool)
    requires forall i :: 0 <= i < |cs| && cs[i].route == r ==> cs[i].add == add
    ensures r in Effect(t, cs) <==> if Names(cs, r) then add else r in t
    decreases |cs|
  {
    if cs != [] {
      EffectOn(Put(t, cs[0]), cs[1..], r, add);
      if Names(cs[1..], r) {
        var i :| 0 <= i < |cs[1..]| && cs[1..][i].route == r;
        assert cs[i + 1].route == r;
      } else if Names(cs, r) {
        var i :| 0 <= i < |cs| && cs[i].route == r;
        assert i != 0 ==> cs[1..][i - 1].route == r;
      }
    }
  }

  /** A table on the way: `t` after some prefix of the changes. */
  ghost predicate Along(t: Table, cs: seq<Change>, t': Table) {
    exists k: nat :: k <= |cs| && t' == Effect(t, cs[..k])
  }

  lemma {:induction false} EffectStep(t: Table, cs: seq<Change>, k: nat)
    requires cs != [] && k <= |cs[1..]|
    ensures Effect(Put(t, cs[0]), cs[1..][..k]) == Effect(t, cs[..k + 1])
  {
    assert cs[..k + 1][1..] == cs[1..][..k];
  }

  lemma {:induction false} AlongStep(t: Table, cs: seq<Change>, t': Table)
    requires cs != [] && Along(Put(t, cs[0]), cs[1..], t')
    ensures Along(t, cs, t')
  {
    var k: nat :| k <= |cs[1..]| && t' == Effect(Put(t, cs[0]), cs[1..][..k]);
    EffectStep(t, cs, k);
  }

  lemma {:induction false} AlongEnds(t: Table, cs: seq<Change>)
    ensures Along(t, cs, t)
    ensures cs != [] ==> Along(t, cs, Put(t, cs[0]))
  {
    assert Effect(t, cs[..0]) == t;
    if cs != [] {
      EffectStep(t, cs, 0);
      assert cs[1..][..0] == [];
    }
  }

  lemma {:induction false} SweepTables(t: Table, cs: seq<Change>)
    ensures forall t' :: t' in Sweep(t, cs) ==> Along(t, cs, t')
    ensures Latest(t, Sweep(t, cs)) == Effect(t, cs)
    decreases |cs|
  {
    if cs != [] {
      var next := Put(t, cs[0]);
      assert Apply(t, cs[0], false).0 == next;
      SweepTables(next, cs[1..]);
      forall t' | t' in Sweep(t, cs)
        ensures Along(t, cs, t')
      {
        if t' == next {
          AlongEnds(t, cs);
        } else {
          AlongStep(t, cs, t');
        }
      }
    }
  }

  lemma {:induction false} SweepConcat(t: Table, a: seq<Change>, b: seq<Change>)
    ensures Sweep(t, a + b) == Sweep(t, a) + Sweep(Latest(t, Sweep(t, a)), b)
    decreases |a|
  {
    if a == [] {
      assert a + b == b;
    } else {
      assert (a + b)[1..] == a[1..] + b;
      SweepConcat(Apply(t, a[0], false).0, a[1..], b);
    }
  }

  /** A bring-up only ever shows prefixes of its changes, and a successful one shows them all. */
  lemma {:induction false} ClimbTables(t: Table, cs: seq<Change>, faults: seq<bool>, lenient: bool)
    ensures forall t' :: t' in Climb(t, cs, faults, lenient).0 ==> Along(t, cs, t')
    ensures Along(t, cs, Latest(t, Climb(t, cs, faults, lenient).0))
    ensures Climb(t, cs, faults, lenient).1 ==> Latest(t, Climb(t, cs, faults, lenient).0) == Effect(t, cs)
    decreases |cs|
  {
    AlongEnds(t, cs);
    if cs != [] {
      var (next, a) := Apply(t, cs[0], faults != [] && faults[0]);
      if !Fatal(a, lenient) {
        assert next == Put(t, cs[0]);
        var tail := if faults == [] then [] else faults[1..];
        ClimbTables(next, cs[1..], tail, lenient);
        var rest := Climb(next, cs[1..], tail, lenient).0;
        AlongStep(t, cs, Latest(next, rest));
        forall t' | t' in Climb(t, cs, faults, lenient).0
          ensures Along(t, cs, t')
        {
          if t' != next {
            AlongStep(t, cs, t');
          }
        }
      }
    }
  }

  lemma {:induction false} EffectConcat(t: Table, a: seq<Change>, b: seq<Change>)
    ensures Effect(t, a + b) == Effect(Effect(t, a), b)
    decreases |a|
  {
    if a == [] {
      assert a + b == b;
    } else {
      assert (a + b)[1..] == a[1..] + b;
      EffectConcat(Put(t, a[0]), a[1..], b);
    }
  }

  lemma {:induction false} AlongConcat(t: Table, a: seq<Change>, b: seq<Change>, t': Table)
    requires Along(t, a + b, t')
    ensures Along(t, a, t') || Along(Effect(t, a), b, t')
  {
    var k: nat :| k <= |a + b| && t' == Effect(t, (a + b)[..k]);
    if k <= |a| {
      assert (a + b)[..k] == a[..k];
    } else {
      assert (a + b)[..k] == a + b[..k - |a|];
      EffectConcat(t, a, b[..k - |a|]);
    }
  }

  // ---------------------------------------------------------------- route by route

  predicate IsDefault(r: Route) {
    r.V4? && r.dst == 0 && r.prefix == 0
  }

  predicate IsPin(r: Route) {
    r.V4? && r.prefix == 32
  }

  /** The routes the ioctls for `ds` name. */
  function Routes(ds: seq<Captured>): (rs: set<Route>)
    ensures forall i :: 0 <= i < |ds| ==> Addressed(ds[i]) in rs
    ensures forall r :: r in rs ==> IsDefault(r) && exists i :: 0 <= i < |ds| && r == Addressed(ds[i])
  {
    if ds == [] then {} else {Addressed(ds[0])} + Routes(ds[1..])
  }

  lemma {:induction false} BaseUpAt(t: Table, pin: UplinkPin, tun: string, k: nat, r: Route)
    requires k <= 3
    ensures r in Effect(t, BaseChanges(pin, tun, true)[..k]) <==>
            r in t || (1 <= k && r == PinRoute(pin)) || (2 <= k && r == Half(false, tun))
            || (k == 3 && r == Half(true, tun))
  {
    var cs := BaseChanges(pin, tun, true);
    EffectOn(t, cs[..k], r, true);
    assert forall i :: 0 <= i < k ==> cs[..k][i] == cs[i];
    assert cs[0].route == PinRoute(pin) && cs[1].route == Half(false, tun) && cs[2].route == Half(true, tun);
  }

  lemma {:induction false} BaseDownAt(t: Table, pin: UplinkPin, tun: string, k: nat, r: Route)
    requires k <= 3
    ensures r in Effect(t, BaseDown(pin, tun)[..k]) <==>
            r in t && !(1 <= k && r == Half(true, tun)) && !(2 <= k && r == Half(false, tun))
            && !(k == 3 && r == PinRoute(pin))
  {
    var cs := BaseDown(pin, tun);
    EffectOn(t, cs[..k], r, false);
    assert forall i :: 0 <= i < k ==> cs[..k][i] == cs[i];
    assert cs[0].route == Half(true, tun) && cs[1].route == Half(false, tun) && cs[2].route == PinRoute(pin);
  }

  /** How many defaults are out after `k` strict bring-up steps. */
  function Deleted(k: nat): nat {
    if k < 2 then 0 else k - 2
  }

  lemma {:induction false} StrictUpAt(t: Table, ds: seq<Captured>, k: nat, r: Route)
    requires k <= |ds| + 2 && r.V4?
    ensures r in Effect(t, StrictChanges(ds, true)[..k]) <==> r in t && r !in Routes(ds[..Deleted(k)])
  {
    var cs := StrictChanges(ds, true);
    EffectOn(t, cs[..k], r, false);
    if Names(cs[..k], r) {
      var i :| 0 <= i < k && cs[..k][i].route == r;
      assert ds[..Deleted(k)][i - 2] == ds[i - 2];
    }
    if r in Routes(ds[..Deleted(k)]) {
      var i :| 0 <= i < Deleted(k) && r == Addressed(ds[..Deleted(k)][i]);
      assert cs[..k][i + 2].route == r;
    }
  }

  /** The first captured default back after `m` teardown steps; best metrics return first. */
  function Restored(n: nat, m: nat): nat {
    if m > n then 0 else n - m
  }

  lemma {:induction false} StrictDownSteps(ds: seq<Captured>)
    ensures |StrictDown(ds)| == |ds| + 2
    ensures forall i :: 0 <= i < |ds| ==> StrictDown(ds)[i] == Change(true, Addressed(ds[|ds| - 1 - i]))
    ensures StrictDown(ds)[|ds|] == Change(false, V6Half(true))
    ensures StrictDown(ds)[|ds| + 1] == Change(false, V6Half(false))
  {
    var halves := [Change(false, V6Half(false)), Change(false, V6Half(true))];
  }

  lemma {:induction false} NamedBack(ds: seq<Captured>, cs: seq<Change>, m: nat, r: Route)
    requires m <= |cs| == |ds| + 2 && r.V4?
    requires forall i :: 0 <= i < |ds| ==> cs[i].route == Addressed(ds[|ds| - 1 - i])
    requires cs[|ds|].route.V6? && cs[|ds| + 1].route.V6?
    ensures Names(cs[..m], r) <==> r in Routes(ds[Restored(|ds|, m)..])
  {
    var low := Restored(|ds|, m);
    if Names(cs[..m], r) {
      var i :| 0 <= i < m && cs[..m][i].route == r;
      assert ds[low..][|ds| - 1 - i - low] == ds[|ds| - 1 - i];
    }
    if r in Routes(ds[low..]) {
      var i :| 0 <= i < |ds| - low && r == Addressed(ds[low..][i]);
      assert cs[..m][|ds| - 1 - low - i] == cs[|ds| - 1 - (low + i)];
    }
  }

  lemma {:induction false} StrictDownAt(t: Table, ds: seq<Captured>, m: nat, r: Route)
    requires m <= |ds| + 2 && r.V4?
    ensures |StrictDown(ds)| == |ds| + 2
    ensures r in Effect(t, StrictDown(ds)[..m]) <==> r in t || r in Routes(ds[Restored(|ds|, m)..])
  {
    var cs := StrictDown(ds);
    StrictDownSteps(ds);
    NamedBack(ds, cs, m, r);
    EffectOn(t, cs[..m], r, true);
  }

  lemma {:induction false} StrictDownOn6(t: Table, ds: seq<Captured>, r: Route)
    requires r.V6?
    ensures r in Effect(t, StrictDown(ds)) <==> r in t && r != V6Half(true) && r != V6Half(false)
  {
    var cs := StrictDown(ds);
    StrictDownSteps(ds);
    EffectOn(t, cs, r, false);
    assert cs[|ds|].route == V6Half(true) && cs[|ds| + 1].route == V6Half(false);
  }
}
