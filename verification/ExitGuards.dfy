/** The route guards as objects over a kernel table: bring-up loops, redials and drops, each
    proved to walk exactly the tables of the life functions (`src/exitroute.rs`). */
module ExitGuards {
  import opened Base
  import opened ExitRoutes
  import opened ExitRouteSafety

  /** The kernel's route table, with every table it has held. */
  class Kernel {
    var table: Table
    var history: seq<Table>

    constructor (t: Table)
      ensures table == t && history == []
    {
      table, history := t, [];
    }

    method Modify(c: Change, refused: bool) returns (a: Answer)
      modifies this
      ensures (table, a) == Apply(old(table), c, refused)
      ensures history == old(history) + [table]
    {
      if refused {
        a := Refused;
      } else if c.add {
        if c.route in table {
          a := Exists;
        } else {
          table, a := table + {c.route}, Done;
        }
      } else if c.route in table {
        table, a := table - {c.route}, Done;
      } else {
        a := Missing;
      }
      history := history + [table];
    }
  }

  function Drop<T>(s: seq<T>, n: nat): seq<T> {
    if n <= |s| then s[n..] else []
  }

  /** `seen` are the tables after the first `i` changes of a bring-up that goes on from `t`. */
  predicate Climbing(t0: Table, cs: seq<Change>, faults: seq<bool>, lenient: bool, i: nat, seen: seq<Table>, t: Table) {
    && i <= |cs|
    && t == Latest(t0, seen)
    && var (whole, ok) := Climb(t0, cs, faults, lenient);
       var (rest, fine) := Climb(t, cs[i..], Drop(faults, i), lenient);
       whole == seen + rest && ok == fine
  }

  lemma {:induction false} ClimbBegins(t0: Table, cs: seq<Change>, faults: seq<bool>, lenient: bool)
    ensures Climbing(t0, cs, faults, lenient, 0, [], t0)
  {
    assert cs[0..] == cs && Drop(faults, 0) == faults;
  }

  lemma {:induction false} ClimbStep(t0: Table, cs: seq<Change>, faults: seq<bool>, lenient: bool, i: nat,
                                     seen: seq<Table>, t: Table)
    requires i < |cs| && Climbing(t0, cs, faults, lenient, i, seen, t)
    ensures var (t', a) := Apply(t, cs[i], i < |faults| && faults[i]);
            if Fatal(a, lenient) then Climb(t0, cs, faults, lenient) == (seen + [t'], false)
            else Climbing(t0, cs, faults, lenient, i + 1, seen + [t'], t')
  {
    var left := Drop(faults, i);
    var (t', a) := Apply(t, cs[i], i < |faults| && faults[i]);
    assert (left != [] && left[0]) == (i < |faults| && faults[i]);
    if !Fatal(a, lenient) {
      assert cs[i..][1..] == cs[i + 1..];
      assert (if left == [] then [] else left[1..]) == Drop(faults, i + 1);
      var rest := Climb(t', cs[i + 1..], Drop(faults, i + 1), lenient).0;
      assert seen + ([t'] + rest) == seen + [t'] + rest;
    }
  }

  /** Apply changes until one fails. */
  method Raise(k: Kernel, cs: seq<Change>, faults: seq<bool>, lenient: bool) returns (ok: bool)
    modifies k
    ensures k.history == old(k.history) + Climb(old(k.table), cs, faults, lenient).0
    ensures k.table == Latest(old(k.table), Climb(old(k.table), cs, faults, lenient).0)
    ensures ok == Climb(old(k.table), cs, faults, lenient).1
  {
    ghost var t0 := k.table;
    ghost var seen: seq<Table> := [];
    ClimbBegins(t0, cs, faults, lenient);
    var i := 0;
    while i < |cs|
      invariant Climbing(t0, cs, faults, lenient, i, seen, k.table)
      invariant k.history == old(k.history) + seen
    {
      ClimbStep(t0, cs, faults, lenient, i, seen, k.table);
      var a := k.Modify(cs[i], i < |faults| && faults[i]);
      seen := seen + [k.table];
      if Fatal(a, lenient) {
        return false;
      }
      i := i + 1;
    }
    ok := true;
  }

  /** Apply changes whatever they answer. */
  method Lower(k: Kernel, cs: seq<Change>)
    modifies k
    ensures k.history == old(k.history) + Sweep(old(k.table), cs)
    ensures k.table == Latest(old(k.table), Sweep(old(k.table), cs))
  {
    ghost var whole := Sweep(k.table, cs);
    var i := 0;
    while i < |cs|
      invariant 0 <= i <= |cs|
      invariant |k.history| == |old(k.history)| + i && old(k.history) <= k.history
      invariant k.table == Latest(old(k.table), k.history[|old(k.history)|..])
      invariant whole == k.history[|old(k.history)|..] + Sweep(k.table, cs[i..])
    {
      ghost var before := k.history[|old(k.history)|..];
      var _ := k.Modify(cs[i], false);
      assert k.history[|old(k.history)|..] == before + [k.table];
      assert cs[i..][1..] == cs[i + 1..];
      i := i + 1;
    }
  }

  // ---------------------------------------------------------------- worst metric first

  function AtMetric(s: seq<Captured>, m: nat): seq<Captured> {
    if s == [] then [] else (if s[0].metric == m then [s[0]] else []) + AtMetric(s[1..], m)
  }

  /** The same routes, those of equal metric in the same order. */
  ghost predicate SameByMetric(s: seq<Captured>, s': seq<Captured>) {
    |s| == |s'| && forall m :: AtMetric(s, m) == AtMetric(s', m)
  }

  lemma {:induction false} AtMetricConcat(a: seq<Captured>, b: seq<Captured>, m: nat)
    ensures AtMetric(a + b, m) == AtMetric(a, m) + AtMetric(b, m)
  {
    if a == [] {
      assert a + b == b;
    } else {
      assert (a + b)[1..] == a[1..] + b;
      AtMetricConcat(a[1..], b, m);
    }
  }

  lemma {:induction false} AtMetricHolds(s: seq<Captured>, d: Captured)
    ensures d in s <==> d in AtMetric(s, d.metric)
  {
    if s != [] {
      AtMetricHolds(s[1..], d);
      assert d in s <==> d == s[0] || d in s[1..];
    }
  }

  /** Sorting moves routes but loses and invents none. */
  lemma {:induction false} SameByMetricHolds(s: seq<Captured>, s': seq<Captured>, d: Captured)
    requires SameByMetric(s, s')
    ensures d in s <==> d in s'
  {
    AtMetricHolds(s, d);
    AtMetricHolds(s', d);
  }

  lemma {:induction false} SwapKeeps(s: seq<Captured>, j: nat)
    requires 0 < j < |s| && s[j].metric != s[j - 1].metric
    ensures SameByMetric(s, s[j := s[j - 1]][j - 1 := s[j]])
  {
    var x, y := s[j - 1], s[j];
    var head, tail := s[..j - 1], s[j + 1..];
    var s' := s[j := x][j - 1 := y];
    assert s == head + ([x, y] + tail) && s' == head + ([y, x] + tail);
    forall m
      ensures AtMetric(s, m) == AtMetric(s', m)
    {
      AtMetricConcat(head, [x, y] + tail, m);
      AtMetricConcat(head, [y, x] + tail, m);
      AtMetricConcat([x, y], tail, m);
      AtMetricConcat([y, x], tail, m);
      assert [x, y][1..] == [y] && [y, x][1..] == [x];
    }
  }

  /** The first `n` in order, but for the one at `j` that is still sinking left. */
  predicate SortedBut(s: seq<Captured>, n: nat, j: nat)
    requires n <= |s|
  {
    forall p, q :: 0 <= p < q < n && q != j ==> s[p].metric >= s[q].metric
  }

  /** Sink the entry at `i` left past every smaller metric. */
  method Sink(a: array<Captured>, i: nat)
    requires i < a.Length && SortedBut(a[..], i, i)
    modifies a
    ensures SortedBut(a[..], i + 1, i + 1) && SameByMetric(old(a[..]), a[..])
  {
    var j := i;
    while j > 0 && a[j].metric > a[j - 1].metric
      invariant 0 <= j <= i && SortedBut(a[..], i + 1, j)
      invariant forall q :: j < q <= i ==> a[j].metric >= a[q].metric
      invariant SameByMetric(old(a[..]), a[..])
    {
      SwapKeeps(a[..], j);
      a[j], a[j - 1] := a[j - 1], a[j];
      j := j - 1;
    }
  }

  /** In-place insertion sort by adjacent swaps, equal metrics left in captured order. */
  method SortWorstFirst(a: array<Captured>)
    modifies a
    ensures WorstFirst(a[..]) && SameByMetric(old(a[..]), a[..])
  {
    var i := 1;
    while i < a.Length
      invariant 1 <= i && (i <= a.Length ==> SortedBut(a[..], i, i)) && (i > a.Length ==> a.Length == 0)
      invariant SameByMetric(old(a[..]), a[..])
    {
      Sink(a, i);
      i := i + 1;
    }
  }

  // ---------------------------------------------------------------- the guards

  /** The base set: the server pin and the two halves. */
  class ExitRouteGuard {
    var pin: UplinkPin
    const tun: string
    const kernel: Kernel

    constructor (k: Kernel, p: UplinkPin, t: string)
      ensures kernel == k && pin == p && tun == t
    {
      kernel, pin, tun := k, p, t;
    }

    /** The base set up to its first fatal answer, which unwinds it: null holds nothing. */
    static method BringUp(k: Kernel, p: UplinkPin, t: string, faults: seq<bool>) returns (g: ExitRouteGuard?)
      modifies k
      ensures var (up, based) := Climb(old(k.table), BaseChanges(p, t, true), faults, true);
              && (g != null <==> based)
              && (based ==> fresh(g) && g.kernel == k && g.pin == p && g.tun == t
                            && k.history == old(k.history) + up && k.table == Latest(old(k.table), up))
              && (!based ==> k.history == old(k.history) + up + Sweep(Latest(old(k.table), up), BaseDown(p, t)))
    {
      var guard := new ExitRouteGuard(k, p, t);
      var ok := Raise(k, BaseChanges(p, t, true), faults, true);
      if ok {
        return guard;
      }
      guard.Release();
      g := null;
    }

    /** Ahead of each dial: move the pin if the server moved, then assert it. */
    method AssertPin(server: nat, refused: bool) returns (ok: bool)
      modifies this, kernel
      ensures var (here, a) := DialTables(old(kernel.table), old(pin), Dial(server, refused));
              && kernel.history == old(kernel.history) + here
              && kernel.table == Latest(old(kernel.table), here)
              && ok == !Fatal(a, true)
      ensures pin == Moved(old(pin), Dial(server, refused))
      ensures ok ==> PinRoute(pin) in kernel.table && pin.addr == server
    {
      if pin.addr != server {
        var _ := kernel.Modify(Change(false, PinRoute(pin)), false);
        pin := WithAddr(pin, server);
      }
      var a := kernel.Modify(Change(true, PinRoute(pin)), refused);
      ok := !Fatal(a, true);
    }

    /** Drop: the halves first, the pin last. */
    method Release()
      modifies kernel
      ensures kernel.history == old(kernel.history) + Sweep(old(kernel.table), BaseDown(pin, tun))
      ensures kernel.table == Latest(old(kernel.table), Sweep(old(kernel.table), BaseDown(pin, tun)))
    {
      Lower(kernel, BaseDown(pin, tun));
    }
  }

  /** The strict set: the IPv6 halves in and the original defaults out. */
  class StrictRouteGuard {
    const defaults: seq<Captured>
    const kernel: Kernel

    constructor (k: Kernel, ds: seq<Captured>)
      ensures kernel == k && defaults == ds
    {
      kernel, defaults := k, ds;
    }

    /** Sort the captured defaults, then program the set; a failed step unwinds it all. */
    static method BringUp(k: Kernel, captured: seq<Captured>, faults: seq<bool>)
      returns (g: StrictRouteGuard?, ds: seq<Captured>)
      modifies k
      ensures WorstFirst(ds) && SameByMetric(captured, ds)
      ensures var (tight, ok) := Climb(old(k.table), StrictChanges(ds, true), faults, false);
              && (g != null <==> ok)
              && (ok ==> fresh(g) && g.kernel == k && g.defaults == ds
                         && k.history == old(k.history) + tight && k.table == Latest(old(k.table), tight))
              && (!ok ==> k.history == old(k.history) + tight + Sweep(Latest(old(k.table), tight), StrictDown(ds))
                          && k.table == Latest(Latest(old(k.table), tight),
                                               Sweep(Latest(old(k.table), tight), StrictDown(ds))))
    {
      var a := new Captured[|captured|](i requires 0 <= i < |captured| => captured[i]);
      assert a[..] == captured;
      SortWorstFirst(a);
      ds := a[..];
      var guard := new StrictRouteGuard(k, ds);
      var ok := Raise(k, StrictChanges(ds, true), faults, false);
      if ok {
        return guard, ds;
      }
      guard.Release();
      g := null;
    }

    /** Drop: the defaults back best first, then the IPv6 halves out. */
    method Release()
      modifies kernel
      ensures kernel.history == old(kernel.history) + Sweep(old(kernel.table), StrictDown(defaults))
      ensures kernel.table == Latest(old(kernel.table), Sweep(old(kernel.table), StrictDown(defaults)))
    {
      Lower(kernel, StrictDown(defaults));
    }
  }

  /** `seen` are the tables after the first `i` redials, which left the guard on `pin`. */
  predicate Dialling(t0: Table, pin0: UplinkPin, ds: seq<Dial>, i: nat, seen: seq<Table>, t: Table, pin: UplinkPin) {
    && i <= |ds|
    && t == Latest(t0, seen)
    && var (whole, last) := Dials(t0, pin0, ds);
       var (rest, end) := Dials(t, pin, ds[i..]);
       whole == seen + rest && last == end
  }

  lemma {:induction false} DialBegins(t0: Table, pin0: UplinkPin, ds: seq<Dial>)
    ensures Dialling(t0, pin0, ds, 0, [], t0, pin0)
  {
    assert ds[0..] == ds;
  }

  lemma {:induction false} DialStep(t0: Table, pin0: UplinkPin, ds: seq<Dial>, i: nat, seen: seq<Table>, t: Table,
                                    pin: UplinkPin)
    requires i < |ds| && Dialling(t0, pin0, ds, i, seen, t, pin)
    ensures var here := DialTables(t, pin, ds[i]).0;
            Dialling(t0, pin0, ds, i + 1, seen + here, Latest(t, here), Moved(pin, ds[i]))
  {
    var here := DialTables(t, pin, ds[i]).0;
    assert ds[i..][1..] == ds[i + 1..];
    var rest := Dials(Latest(t, here), Moved(pin, ds[i]), ds[i + 1..]).0;
    assert seen + (here + rest) == seen + here + rest;
  }

  ghost predicate Based(t: Table, pin: UplinkPin, tun: string, faults: seq<bool>) {
    Climb(t, BaseChanges(pin, tun, true), faults, true).1
  }

  /** The tables of a bring-up, with its unwind when it fails. */
  ghost function Standing(t: Table, pin: UplinkPin, tun: string, ds: Option<seq<Captured>>,
                          faults: seq<bool>, strictFaults: seq<bool>): (seq<Table>, bool) {
    var (up, based) := Climb(t, BaseChanges(pin, tun, true), faults, true);
    var t1 := Latest(t, up);
    if !based then (up + Sweep(t1, BaseDown(pin, tun)), false)
    else if ds.None? then (up, true)
    else
      var (tight, ok) := Climb(t1, StrictChanges(ds.value, true), strictFaults, false);
      if ok then (up + tight, true)
      else (up + (tight + Sweep(Latest(t1, tight), StrictDown(ds.value) + BaseDown(pin, tun))), false)
  }

  lemma {:induction false} StandsOn(t: Table, pin: UplinkPin, tun: string, ds: seq<Captured>, faults: seq<bool>,
                                    strictFaults: seq<bool>)
    requires Based(t, pin, tun, faults)
    ensures var up := Climb(t, BaseChanges(pin, tun, true), faults, true).0;
            var t1 := Latest(t, up);
            var (tight, ok) := Climb(t1, StrictChanges(ds, true), strictFaults, false);
            var off := if ok then [] else Sweep(Latest(t1, tight), StrictDown(ds) + BaseDown(pin, tun));
            && Standing(t, pin, tun, Some(ds), faults, strictFaults) == (up + (tight + off), ok)
            && (ok ==> Latest(t, up + (tight + off)) == Latest(t1, tight))
  {
    var up := Climb(t, BaseChanges(pin, tun, true), faults, true).0;
    var (tight, ok) := Climb(Latest(t, up), StrictChanges(ds, true), strictFaults, false);
    assert ok ==> tight + [] == tight;
  }

  /** The changes that take a standing set down. */
  ghost function Down(pin: UplinkPin, tun: string, ds: Option<seq<Captured>>): seq<Change> {
    match ds
    case None => BaseDown(pin, tun)
    case Some(s) => StrictDown(s) + BaseDown(pin, tun)
  }

  /** The tables of a standing set's redials and drop. */
  ghost function Worn(t: Table, pin: UplinkPin, tun: string, ds: Option<seq<Captured>>,
                      redials: seq<Dial>): seq<Table> {
    var (dials, last) := Dials(t, pin, redials);
    dials + Sweep(Latest(t, dials), Down(last, tun, ds))
  }

  lemma {:induction false} BaseLifeIsWorn(up: seq<Table>, t1: Table, pin: UplinkPin, tun: string, redials: seq<Dial>)
    ensures Tables(BaseLife(up, t1, pin, tun, redials)) == up + Worn(t1, pin, tun, None, redials)
  {
  }

  lemma {:induction false} StrictLifeIsWorn(t: Table, up: seq<Table>, pin: UplinkPin, tun: string, ds: seq<Captured>,
                                            faults: seq<bool>, redials: seq<Dial>)
    ensures var t1 := Latest(t, up);
            var l := StrictLife(up, t1, pin, tun, ds, faults, redials);
            var (tight, ok) := Climb(t1, StrictChanges(ds, true), faults, false);
            && l.ok == ok
            && (ok ==> Tables(l) == (up + tight) + Worn(Latest(t, up + tight), pin, tun, Some(ds), redials))
            && (!ok ==> Tables(l) == up + (tight + Sweep(Latest(t1, tight), StrictDown(ds) + BaseDown(pin, tun))))
  {
    var tight := Climb(Latest(t, up), StrictChanges(ds, true), faults, false).0;
    assert Latest(t, up + tight) == Latest(Latest(t, up), tight);
  }

  lemma {:induction false} LifeIsStanding(t: Table, pin: UplinkPin, tun: string, ds: Option<seq<Captured>>,
                       faults: seq<bool>, strictFaults: seq<bool>, redials: seq<Dial>)
    ensures var l := Lived(t, pin, tun, ds, faults, strictFaults, redials);
            var (seen, ok) := Standing(t, pin, tun, ds, faults, strictFaults);
            && l.ok == ok
            && Tables(l) == seen + if ok then Worn(Latest(t, seen), pin, tun, ds, redials) else []
  {
    var (up, based) := Climb(t, BaseChanges(pin, tun, true), faults, true);
    if based && ds.None? {
      BaseLifeIsWorn(up, Latest(t, up), pin, tun, redials);
    } else if based {
      StrictLifeIsWorn(t, up, pin, tun, ds.value, strictFaults, redials);
    }
  }

  /** Strict bring-up over a standing base; when it fails the base goes too. */
  method Tighten(b: ExitRouteGuard, captured: seq<Captured>, faults: seq<bool>)
    returns (s: StrictRouteGuard?, ds: seq<Captured>)
    modifies b.kernel
    ensures WorstFirst(ds) && SameByMetric(captured, ds)
    ensures var (tight, ok) := Climb(old(b.kernel.table), StrictChanges(ds, true), faults, false);
            var t2 := Latest(old(b.kernel.table), tight);
            && (s != null <==> ok)
            && (ok ==> fresh(s) && s.kernel == b.kernel && s.defaults == ds
                       && b.kernel.history == old(b.kernel.history) + tight && b.kernel.table == t2)
            && (!ok ==>
                  b.kernel.history
                  == old(b.kernel.history) + (tight + Sweep(t2, StrictDown(ds) + BaseDown(b.pin, b.tun))))
  {
    ghost var t1, h := b.kernel.table, b.kernel.history;
    s, ds := StrictRouteGuard.BringUp(b.kernel, captured, faults);
    if s == null {
      ghost var tight := Climb(t1, StrictChanges(ds, true), faults, false).0;
      ghost var off := Sweep(Latest(t1, tight), StrictDown(ds));
      ghost var t3 := b.kernel.table;
      SweepConcat(Latest(t1, tight), StrictDown(ds), BaseDown(b.pin, b.tun));
      b.Release();
      Joined(h, tight, off, Sweep(t3, BaseDown(b.pin, b.tun)));
    }
  }

  lemma {:induction false} Joined<T>(a: seq<T>, b: seq<T>, c: seq<T>, d: seq<T>)
    ensures a + b + c == a + (b + c)
    ensures a + b + c + d == a + (b + (c + d))
  {
  }

  /** What one exit session holds: a base guard, and in strict mode a strict one. */
  class ExitRouteSet {
    const base: ExitRouteGuard
    const strict: StrictRouteGuard?

    constructor (b: ExitRouteGuard, s: StrictRouteGuard?)
      ensures base == b && strict == s
    {
      base, strict := b, s;
    }

    /** The base set and then the strict one, whose failure takes the base down again. */
    static method BringUp(k: Kernel, pin: UplinkPin, tun: string, captured: Option<seq<Captured>>,
                          faults: seq<bool>, strictFaults: seq<bool>)
      returns (g: ExitRouteSet?, ds: Option<seq<Captured>>)
      modifies k
      ensures ds.Some? == captured.Some?
      ensures captured.Some? && Based(old(k.table), pin, tun, faults) ==>
                WorstFirst(ds.value) && SameByMetric(captured.value, ds.value)
      ensures var (seen, ok) := Standing(old(k.table), pin, tun, ds, faults, strictFaults);
              && (g != null <==> ok)
              && k.history == old(k.history) + seen
              && (ok ==> k.table == Latest(old(k.table), seen))
      ensures g != null ==>
                && fresh(g) && fresh(g.base) && g.base.kernel == k && g.base.pin == pin && g.base.tun == tun
                && (g.strict != null <==> ds.Some?)
                && (g.strict != null ==> g.strict.kernel == k && g.strict.defaults == ds.value)
    {
      ds := captured;
      var b := ExitRouteGuard.BringUp(k, pin, tun, faults);
      if b == null {
        return null, ds;
      }
      if captured.None? {
        g := new ExitRouteSet(b, null);
        return g, ds;
      }
      ghost var t1 := k.table;
      var s, sorted := Tighten(b, captured.value, strictFaults);
      ds := Some(sorted);
      ghost var up := Climb(old(k.table), BaseChanges(pin, tun, true), faults, true).0;
      ghost var (tight, ok) := Climb(t1, StrictChanges(sorted, true), strictFaults, false);
      ghost var off := if ok then [] else Sweep(Latest(t1, tight), StrictDown(sorted) + BaseDown(pin, tun));
      assert k.history == old(k.history) + up + (tight + off);
      Joined(old(k.history), up, tight + off, []);
      StandsOn(old(k.table), pin, tun, sorted, faults, strictFaults);
      if s == null {
        return null, ds;
      }
      g := new ExitRouteSet(b, s);
    }

    method AssertPin(server: nat, refused: bool) returns (ok: bool)
      modifies base, base.kernel
      ensures var (here, a) := DialTables(old(base.kernel.table), old(base.pin), Dial(server, refused));
              && base.kernel.history == old(base.kernel.history) + here
              && base.kernel.table == Latest(old(base.kernel.table), here)
              && ok == !Fatal(a, true)
      ensures base.pin == Moved(old(base.pin), Dial(server, refused))
    {
      ok := base.AssertPin(server, refused);
    }

    /** Drop, in field order: the strict set before the base routes. */
    method Release()
      requires strict != null ==> strict.kernel == base.kernel
      modifies base.kernel
      ensures var ds := if strict == null then None else Some(strict.defaults);
              base.kernel.history
              == old(base.kernel.history) + Sweep(old(base.kernel.table), Down(base.pin, base.tun, ds))
    {
      if strict != null {
        SweepConcat(base.kernel.table, StrictDown(strict.defaults), BaseDown(base.pin, base.tun));
        strict.Release();
      }
      base.Release();
    }
  }

  method Redial(g: ExitRouteSet, redials: seq<Dial>)
    modifies g.base, g.base.kernel
    ensures var k := g.base.kernel; var (dials, last) := Dials(old(k.table), old(g.base.pin), redials);
            k.history == old(k.history) + dials && k.table == Latest(old(k.table), dials) && g.base.pin == last
  {
    var k := g.base.kernel;
    ghost var seen: seq<Table> := [];
    DialBegins(k.table, g.base.pin, redials);
    var i := 0;
    while i < |redials|
      invariant Dialling(old(k.table), old(g.base.pin), redials, i, seen, k.table, g.base.pin)
      invariant k.history == old(k.history) + seen
    {
      DialStep(old(k.table), old(g.base.pin), redials, i, seen, k.table, g.base.pin);
      ghost var here := DialTables(k.table, g.base.pin, redials[i]).0;
      var _ := g.AssertPin(redials[i].server, redials[i].refused);
      seen := seen + here;
      i := i + 1;
    }
  }

  /** Redials while the set is held, then its drop. */
  method Wear(g: ExitRouteSet, redials: seq<Dial>)
    requires g.strict != null ==> g.strict.kernel == g.base.kernel
    modifies g.base, g.base.kernel
    ensures var k := g.base.kernel;
            var ds := if g.strict == null then None else Some(g.strict.defaults);
            k.history == old(k.history) + Worn(old(k.table), old(g.base.pin), g.base.tun, ds, redials)
  {
    var k := g.base.kernel;
    ghost var h := k.history;
    ghost var (dials, last) := Dials(k.table, g.base.pin, redials);
    Redial(g, redials);
    ghost var t := k.table;
    g.Release();
    ghost var ds := if g.strict == null then None else Some(g.strict.defaults);
    Joined(h, dials, Sweep(t, Down(last, g.base.tun, ds)), []);
  }

  /** One tun session, from bring-up through its redials to the drop: the tables the kernel
      holds are exactly a life's, so every result about lives is about this code. */
  method Session(k: Kernel, pin: UplinkPin, tun: string, captured: Option<seq<Captured>>,
                 faults: seq<bool>, strictFaults: seq<bool>, redials: seq<Dial>)
    returns (ok: bool, ds: Option<seq<Captured>>)
    modifies k
    ensures ds.Some? == captured.Some?
    ensures captured.Some? && Based(old(k.table), pin, tun, faults) ==>
              WorstFirst(ds.value) && SameByMetric(captured.value, ds.value)
    ensures var l := Lived(old(k.table), pin, tun, ds, faults, strictFaults, redials);
            k.history == old(k.history) + Tables(l) && ok == l.ok
  {
    var g;
    g, ds := ExitRouteSet.BringUp(k, pin, tun, captured, faults, strictFaults);
    ok := g != null;
    ghost var (seen, _) := Standing(old(k.table), pin, tun, ds, faults, strictFaults);
    ghost var tail := if ok then Worn(k.table, pin, tun, ds, redials) else [];
    if ok {
      Wear(g, redials);
    }
    assert k.history == old(k.history) + seen + tail;
    Joined(old(k.history), seen, tail, []);
    LifeIsStanding(old(k.table), pin, tun, ds, faults, strictFaults, redials);
  }

  // ---------------------------------------------------------------- underlay pins

  function PinRoutes(pins: seq<UplinkPin>): (rs: set<Route>)
    ensures forall i :: 0 <= i < |pins| ==> PinRoute(pins[i]) in rs
  {
    if pins == [] then {} else PinRoutes(pins[..|pins| - 1]) + {PinRoute(pins[|pins| - 1])}
  }

  function PinRoutesFrom(pins: seq<UplinkPin>, i: nat): set<Route>
    requires i <= |pins|
    decreases |pins| - i
  {
    if i == |pins| then {} else {PinRoute(pins[i])} + PinRoutesFrom(pins, i + 1)
  }

  lemma {:induction false} PinRoutesSplit(pins: seq<UplinkPin>, i: nat)
    requires i <= |pins|
    ensures PinRoutes(pins) == PinRoutes(pins[..i]) + PinRoutesFrom(pins, i)
    decreases |pins| - i
  {
    if i == |pins| {
      assert pins[..i] == pins;
    } else {
      assert pins[..i + 1][..i] == pins[..i];
      PinRoutesSplit(pins, i + 1);
    }
  }

  /** Pins held beside a base set, each for one peer that no narrower route covers. */
  class PinGuard {
    var pins: seq<UplinkPin>
    const kernel: Kernel

    constructor (k: Kernel)
      ensures kernel == k && pins == []
    {
      kernel, pins := k, [];
    }

    /** Pins in order up to the first refused one. That one unwinds the pins before it, those the
        table already held among them, and leaves its own route alone. */
    static method BringUp(k: Kernel, pins: seq<UplinkPin>, faults: seq<bool>) returns (g: PinGuard?, n: nat)
      modifies k
      ensures n <= |pins| && (g != null <==> n == |pins|)
      ensures forall i :: 0 <= i < n && i < |faults| ==> !faults[i]
      ensures g == null ==> n < |faults| && faults[n]
      ensures g != null ==> fresh(g) && g.kernel == k && g.pins == pins && k.table == old(k.table) + PinRoutes(pins)
      ensures g == null ==> k.table == old(k.table) - PinRoutes(pins[..n])
    {
      var guard := new PinGuard(k);
      n := 0;
      while n < |pins|
        invariant n <= |pins| && guard.pins == pins[..n]
        invariant forall i :: 0 <= i < n && i < |faults| ==> !faults[i]
        invariant k.table == old(k.table) + PinRoutes(pins[..n])
      {
        var a := k.Modify(Change(true, PinRoute(pins[n])), n < |faults| && faults[n]);
        if Fatal(a, true) {
          guard.Release();
          return null, n;
        }
        assert pins[..n + 1][..n] == pins[..n];
        guard.pins := guard.pins + [pins[n]];
        n := n + 1;
      }
      assert pins[..n] == pins;
      g := guard;
    }

    /** Drop: the pins off, last first. */
    method Release()
      modifies kernel
      ensures kernel.table == old(kernel.table) - PinRoutes(pins)
    {
      var i := |pins|;
      while i > 0
        invariant 0 <= i <= |pins|
        invariant kernel.table == old(kernel.table) - PinRoutesFrom(pins, i)
      {
        i := i - 1;
        var _ := kernel.Modify(Change(false, PinRoute(pins[i])), false);
      }
      PinRoutesSplit(pins, 0);
    }
  }
}
