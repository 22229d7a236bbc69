/** Exactly when two promises of an exit-route life stop holding: a default at a priority no
    ioctl can carry, and a refused redial. */
module ExitRouteLimits {
  import opened Base
  import opened ExitRoutes
  import opened ExitRouteSafety

  // ---------------------------------------------------------------- the order of the defaults

  /** None of the captured defaults present has a worse metric than one that is missing. */
  predicate FullyGraded(t: Table, ds: seq<Captured>) {
    forall i, j | 0 <= i < |ds| && 0 <= j < |ds| ::
      DefaultRoute(ds[i]) in t && DefaultRoute(ds[j]) !in t ==> ds[i].metric <= ds[j].metric
  }

  /** The ioctls for the worst default name another one, and the strict set gets to try. */
  predicate Misnamed(t0: Table, ds: seq<Captured>) {
    ds != [] && !Exact(ds[0]) && Addressed(ds[0]) in t0 && V6Half(false) !in t0 && V6Half(true) !in t0
  }

  /** A default the ioctls for the worst one would name was captured itself. */
  predicate NamesakeCaptured(t0: Table, ds: seq<Captured>) {
    ds != [] && Addressed(ds[0]) in t0 ==> exists j :: 0 <= j < |ds| && DefaultRoute(ds[j]) == Addressed(ds[0])
  }

  /** What one read of the table captures: every default that is not the tunnel's own. */
  predicate Captures(t0: Table, tun: string, ds: seq<Captured>) {
    && AllCaptured(t0, ds)
    && (forall i :: 0 <= i < |ds| ==> ds[i].iface != tun)
    && (forall r :: r in t0 && IsDefault(r) && r.dev != tun ==> exists j :: 0 <= j < |ds| && DefaultRoute(ds[j]) == r)
  }

  lemma {:induction false} NamesakesAreCaptured(t0: Table, tun: string, ds: seq<Captured>)
    requires Captures(t0, tun, ds)
    ensures NamesakeCaptured(t0, ds)
  {
    if ds != [] && Addressed(ds[0]) in t0 {
      assert IsDefault(Addressed(ds[0])) && Addressed(ds[0]).dev != tun;
    }
  }

  function Later(faults: seq<bool>): seq<bool> {
    if faults == [] then [] else faults[1..]
  }

  /** A strict bring-up that cannot make its first deletion touches no default. */
  lemma {:induction false} TightStops(t1: Table, ds: seq<Captured>, faults: seq<bool>)
    requires ds != [] && (Addressed(ds[0]) !in t1 || V6Half(false) in t1 || V6Half(true) in t1)
    ensures var (tight, ok) := Climb(t1, StrictChanges(ds, true), faults, false);
            !ok && SameDefaults(t1, Latest(t1, tight)) && forall t :: t in tight ==> SameDefaults(t1, t)
  {
    var cs := StrictChanges(ds, true);
    var ta := Apply(t1, cs[0], faults != [] && faults[0]).0;
    var f1 := Later(faults);
    var (tb, b) := Apply(ta, cs[1], f1 != [] && f1[0]);
    var f2 := Later(f1);
    assert cs[1..][1..] == DefaultChanges(ds, false);
    assert !Fatal(b, false) ==>
        Climb(ta, cs[1..], f1, false).0 == [tb] + Climb(tb, DefaultChanges(ds, false), f2, false).0;
    assert SameDefaults(t1, ta) && SameDefaults(t1, tb);
  }

  /** Teardown only ever puts defaults back. */
  lemma {:induction false} TeardownKeepsDefaults(w: Table, pin: UplinkPin, tun: string, ds: seq<Captured>, t: Table,
                                                 r: Route)
    requires t in Sweep(w, StrictDown(ds) + BaseDown(pin, tun)) && IsDefault(r) && r in w
    ensures r in t
  {
    var cs := StrictDown(ds) + BaseDown(pin, tun);
    SweepTables(w, cs);
    var k: nat :| k <= |cs| && t == Effect(w, cs[..k]);
    EffectOn(w, cs[..k], r, true);
  }

  lemma {:induction false} NothingMissing(t0: Table, pin: UplinkPin, tun: string, ds: seq<Captured>, faults: seq<bool>,
                                          strictFaults: seq<bool>, redials: seq<Dial>, t: Table)
    requires AllCaptured(t0, ds) && ds != [] && !Exact(ds[0]) && !Misnamed(t0, ds)
    requires t in Tables(Lived(t0, pin, tun, Some(ds), faults, strictFaults, redials))
    ensures AllCaptured(t, ds)
  {
    var l := Lived(t0, pin, tun, Some(ds), faults, strictFaults, redials);
    var (up, based) := Climb(t0, BaseChanges(pin, tun, true), faults, true);
    var t1 := Latest(t0, up);
    BaseBringUp(t0, pin, tun, faults);
    if !based {
      if t !in up {
        BaseTeardown(t0, t1, pin, tun, t);
      }
    } else {
      BaseLeavesSix(t0, pin, tun, faults);
      TightStops(t1, ds, strictFaults);
      var w := Latest(t1, Climb(t1, StrictChanges(ds, true), strictFaults, false).0);
      if t in l.down {
        forall i | 0 <= i < |ds|
          ensures DefaultRoute(ds[i]) in t
        {
          TeardownKeepsDefaults(w, pin, tun, ds, t, DefaultRoute(ds[i]));
        }
      }
    }
  }

  lemma {:induction false} BaseLeavesSix(t0: Table, pin: UplinkPin, tun: string, faults: seq<bool>)
    ensures var t1 := Latest(t0, Climb(t0, BaseChanges(pin, tun, true), faults, true).0);
            forall upper :: V6Half(upper) in t1 <==> V6Half(upper) in t0
  {
    forall upper {
      ClimbLeaves(t0, BaseChanges(pin, tun, true), faults, true, V6Half(upper));
    }
  }

  /** Deleting the worst default takes its namesake instead, and leaves the worst one in. */
  lemma {:induction false} Misgrades(t0: Table, pin: UplinkPin, tun: string, ds: seq<Captured>) returns (t: Table)
    requires AllCaptured(t0, ds) && NamesakeCaptured(t0, ds) && Misnamed(t0, ds)
    ensures t in Tables(Lived(t0, pin, tun, Some(ds), [], [], [])) && !FullyGraded(t, ds)
  {
    AddsAreHeld(t0, BaseChanges(pin, tun, true));
    BaseBringUp(t0, pin, tun, []);
    BaseLeavesSix(t0, pin, tun, []);
    var t1 := Latest(t0, Climb(t0, BaseChanges(pin, tun, true), [], true).0);
    var tb := t1 + {V6Half(false)} + {V6Half(true)};
    t := tb - {Addressed(ds[0])};
    FirstDeletion(t1, ds);
    assert t in Lived(t0, pin, tun, Some(ds), [], [], []).tight;
    var j :| 0 <= j < |ds| && DefaultRoute(ds[j]) == Addressed(ds[0]);
    assert DefaultRoute(ds[0]) in t && DefaultRoute(ds[j]) !in t;
  }

  lemma {:induction false} FirstDeletion(t1: Table, ds: seq<Captured>)
    requires ds != [] && Addressed(ds[0]) in t1 && V6Half(false) !in t1 && V6Half(true) !in t1
    ensures t1 + {V6Half(false)} + {V6Half(true)} - {Addressed(ds[0])}
            in Climb(t1, StrictChanges(ds, true), [], false).0
  {
    var cs := StrictChanges(ds, true);
    var ta := t1 + {V6Half(false)};
    var tb := ta + {V6Half(true)};
    var tc := tb - {Addressed(ds[0])};
    assert cs[1..][1..] == DefaultChanges(ds, false);
    assert tc == Climb(tb, DefaultChanges(ds, false), [], false).0[0];
    assert Climb(ta, cs[1..], [], false).0 == [tb] + Climb(tb, DefaultChanges(ds, false), [], false).0;
    assert Climb(t1, cs, [], false).0 == [ta] + Climb(ta, cs[1..], [], false).0;
    assert tc == Climb(t1, cs, [], false).0[2];
  }

  /** Main result: whatever is refused, no table of a strict life holds a worse captured default
      while a better one is missing, exactly when the worst of them fits an ioctl or the ioctls
      for it name nothing. */
  lemma {:induction false} GradedIff(t0: Table, pin: UplinkPin, tun: string, ds: seq<Captured>)
    requires HasDefault(t0) && WorstFirst(ds) && Captures(t0, tun, ds)
    ensures (forall faults, strictFaults, redials, t ::
               t in Tables(Lived(t0, pin, tun, Some(ds), faults, strictFaults, redials)) ==> FullyGraded(t, ds))
            <==> !Misnamed(t0, ds)
  {
    if Misnamed(t0, ds) {
      NamesakesAreCaptured(t0, tun, ds);
      var t := Misgrades(t0, pin, tun, ds);
    } else {
      forall faults, strictFaults, redials, t
        | t in Tables(Lived(t0, pin, tun, Some(ds), faults, strictFaults, redials))
        ensures FullyGraded(t, ds)
      {
        GradedUnlessMisnamed(t0, pin, tun, ds, faults, strictFaults, redials, t);
      }
    }
  }

  lemma {:induction false} GradedUnlessMisnamed(t0: Table, pin: UplinkPin, tun: string, ds: seq<Captured>,
                                                faults: seq<bool>, strictFaults: seq<bool>, redials: seq<Dial>,
                                                t: Table)
    requires HasDefault(t0) && WorstFirst(ds) && AllCaptured(t0, ds) && !Misnamed(t0, ds)
    requires t in Tables(Lived(t0, pin, tun, Some(ds), faults, strictFaults, redials))
    ensures FullyGraded(t, ds)
  {
    if ds != [] && !Exact(ds[0]) {
      NothingMissing(t0, pin, tun, ds, faults, strictFaults, redials, t);
    } else {
      EveryTableIsSafe(t0, pin, tun, Some(ds), faults, strictFaults, redials, t);
      assert Defaults(Some(ds)) == ds;
    }
  }

  /** For instance defaults through one gateway at priorities 40000 and 32766. */
  lemma {:induction false} NamesakeDefaults()
    ensures var a, b := Captured(1, "eth0", 40_000), Captured(1, "eth0", MAX_PRIORITY);
            var t0 := {DefaultRoute(a), DefaultRoute(b)};
            && WorstFirst([a, b]) && Captures(t0, "tun0", [a, b])
            && exists t ::
                 t in Tables(Lived(t0, OnLink(7, "eth0"), "tun0", Some([a, b]), [], [], [])) && !FullyGraded(t, [a, b])
  {
    var a, b := Captured(1, "eth0", 40_000), Captured(1, "eth0", MAX_PRIORITY);
    assert DefaultRoute([a, b][1]) == Addressed([a, b][0]);
    assert DefaultRoute([a, b][0]) == DefaultRoute(a);
    var t := Misgrades({DefaultRoute(a), DefaultRoute(b)}, OnLink(7, "eth0"), "tun0", [a, b]);
  }

  // ---------------------------------------------------------------- the pin at teardown

  /** The table a standing set's drop starts on. */
  function BeforeDrop(t0: Table, l: Life): Table {
    Latest(t0, l.up + l.tight + l.dials)
  }

  lemma {:induction false} BaseDropPinnedIff(t0: Table, w: Table, last: UplinkPin, tun: string)
    requires Halves(w, tun) && SameDefaults(t0, w)
    ensures (forall t :: t in Sweep(w, BaseDown(last, tun)) ==> Pinned(t0, t, last, tun)) <==>
            PinRoute(last) in w || Half(false, tun) in t0
  {
    var cs := BaseDown(last, tun);
    var first := w - {Half(true, tun)};
    assert cs == [Change(false, Half(true, tun)), Change(false, Half(false, tun)), Change(false, PinRoute(last))];
    assert Sweep(w, cs)[0] == first;
    if PinRoute(last) in w {
      forall t | t in Sweep(w, cs) {
        BaseTeardown(t0, w, last, tun, t);
      }
    } else if Half(false, tun) in t0 {
      forall t | t in Sweep(w, cs)
        ensures Half(true, tun) !in t
      {
        SweepStays(first, cs[1..], Half(true, tun));
      }
    } else {
      assert first in Sweep(w, cs) && !Pinned(t0, first, last, tun);
    }
  }

  /** A route that is out, and only ever deleted, stays out. */
  lemma {:induction false} SweepStays(w: Table, cs: seq<Change>, r: Route)
    requires r !in w && forall i :: 0 <= i < |cs| ==> !cs[i].add
    ensures forall t :: t in Sweep(w, cs) ==> r !in t
    decreases |cs|
  {
    if cs != [] {
      SweepStays(Apply(w, cs[0], false).0, cs[1..], r);
    }
  }

  lemma {:induction false} StrictDropPinnedIff(t0: Table, w: Table, last: UplinkPin, tun: string, ds: seq<Captured>)
    requires HasDefault(t0) && Halves(w, tun) && Deleting(t0, w, ds)
    ensures (forall t :: t in Sweep(w, StrictDown(ds) + BaseDown(last, tun)) ==> Pinned(t0, t, last, tun)) <==>
            PinRoute(last) in w || Halves(t0, tun)
  {
    var cs := StrictDown(ds) + BaseDown(last, tun);
    StrictDownSteps(ds);
    var first := Apply(w, cs[0], false).0;
    assert Sweep(w, cs)[0] == first;
    if PinRoute(last) in w {
      forall t | t in Sweep(w, cs) {
        StrictTeardown(t0, w, last, tun, ds, t);
      }
    } else if !Halves(t0, tun) {
      assert Halves(first, tun) && PinRoute(last) !in first;
      assert first in Sweep(w, cs) && !Pinned(t0, first, last, tun);
    }
  }

  /** Main result: the drop of a standing set keeps every half of its own pinned exactly when the
      pin was in before the drop, or no half it leaves for later was its own. */
  lemma {:induction false} PinnedDropIff(t0: Table, pin: UplinkPin, tun: string, strict: Option<seq<Captured>>,
                                         faults: seq<bool>, strictFaults: seq<bool>, redials: seq<Dial>)
    requires HasDefault(t0) && Lived(t0, pin, tun, strict, faults, strictFaults, redials).ok
    ensures var l := Lived(t0, pin, tun, strict, faults, strictFaults, redials);
            (forall t :: t in l.down ==> Pinned(t0, t, LastPin(pin, redials), tun)) <==>
            || PinRoute(LastPin(pin, redials)) in BeforeDrop(t0, l)
            || (Half(false, tun) in t0 && (strict.Some? ==> Half(true, tun) in t0))
  {
    var l := Lived(t0, pin, tun, strict, faults, strictFaults, redials);
    var up := Climb(t0, BaseChanges(pin, tun, true), faults, true).0;
    var t1 := Latest(t0, up);
    BaseBringUp(t0, pin, tun, faults);
    if strict.None? {
      var (dials, last) := Dials(t1, pin, redials);
      DialsEndOn(t1, pin, redials);
      DialsMovePins(t1, pin, redials);
      assert BeforeDrop(t0, l) == Latest(t1, dials);
      BaseDropPinnedIff(t0, Latest(t1, dials), last, tun);
    } else {
      StrictDrop(t0, t1, pin, tun, strict.value, strictFaults, redials);
      var tight := Climb(t1, StrictChanges(strict.value, true), strictFaults, false).0;
      assert BeforeDrop(t0, l) == Latest(Latest(t1, tight), Dials(Latest(t1, tight), pin, redials).0);
    }
  }

  lemma {:induction false} StrictDrop(t0: Table, t1: Table, pin: UplinkPin, tun: string, ds: seq<Captured>,
                                      faults: seq<bool>, redials: seq<Dial>)
    requires HasDefault(t0) && SameDefaults(t0, t1) && Halves(t1, tun)
    ensures var t2 := Latest(t1, Climb(t1, StrictChanges(ds, true), faults, false).0);
            var (dials, last) := Dials(t2, pin, redials);
            var w := Latest(t2, dials);
            && last == LastPin(pin, redials)
            && ((forall t :: t in Sweep(w, StrictDown(ds) + BaseDown(last, tun)) ==> Pinned(t0, t, last, tun)) <==>
                PinRoute(last) in w || Halves(t0, tun))
  {
    var t2 := Latest(t1, Climb(t1, StrictChanges(ds, true), faults, false).0);
    StrictBringUp(t0, t1, ds, faults);
    var (dials, last) := Dials(t2, pin, redials);
    DialsEndOn(t2, pin, redials);
    DialsMovePins(t2, pin, redials);
    var k: nat :| k <= |ds| && Shape(t0, t2, ds, k, |ds|);
    ShapeKept(t0, t2, Latest(t2, dials), ds, k, |ds|);
    StrictDropPinnedIff(t0, Latest(t2, dials), last, tun, ds);
  }

  lemma {:induction false} OneDial(t: Table, pin: UplinkPin, d: Dial)
    ensures Dials(t, pin, [d]) == (DialTables(t, pin, d).0, Moved(pin, d)) && LastPin(pin, [d]) == Moved(pin, d)
  {
    assert [d][1..] == [];
    assert LastPin(Moved(pin, d), []) == Moved(pin, d);
    assert DialTables(t, pin, d).0 + [] == DialTables(t, pin, d).0;
  }

  /** A server that moved and whose new pin was refused: the drop then takes the halves off one
      by one with no pin in the table. */
  lemma {:induction false} RefusedMoveUnpins(t0: Table, pin: UplinkPin, tun: string, server: nat)
    returns (t: Table)
    requires HasDefault(t0) && Half(false, tun) !in t0
    requires server != pin.addr && PinRoute(WithAddr(pin, server)) !in t0
    ensures var redials := [Dial(server, true)];
            var l := Lived(t0, pin, tun, None, [], [], redials);
            l.ok && t in l.down && !Pinned(t0, t, LastPin(pin, redials), tun)
  {
    var d := Dial(server, true);
    var l := Lived(t0, pin, tun, None, [], [], [d]);
    var cs := BaseChanges(pin, tun, true);
    AddsAreHeld(t0, cs);
    var t1 := Latest(t0, Climb(t0, cs, [], true).0);
    ClimbLeaves(t0, cs, [], true, PinRoute(Moved(pin, d)));
    OneDial(t1, pin, d);
    assert l == BaseLife(l.up, t1, pin, tun, [d]);
    assert l.dials == DialTables(t1, pin, d).0;
    assert BeforeDrop(t0, l) == Latest(t1, l.dials);
    PinnedDropIff(t0, pin, tun, None, [], [], [d]);
    t :| t in l.down && !Pinned(t0, t, LastPin(pin, [d]), tun);
  }

  /** For instance from one default alone. */
  lemma {:induction false} UnpinnedDrop(t0: Table, pin: UplinkPin, redials: seq<Dial>) returns (t: Table)
    requires t0 == {DefaultRoute(Captured(1, "eth0", 0))} && pin == OnLink(7, "eth0") && redials == [Dial(8, true)]
    ensures t in Lived(t0, pin, "tun0", None, [], [], redials).down && !Pinned(t0, t, LastPin(pin, redials), "tun0")
  {
    assert IsDefault(DefaultRoute(Captured(1, "eth0", 0)));
    t := RefusedMoveUnpins(t0, pin, "tun0", 8);
  }

  // ---------------------------------------------------------------- the pin between redials

  /** The table a set that stood on `w` stands on after its first `k` redials. */
  function After(w: Table, pin: UplinkPin, redials: seq<Dial>, k: nat): Table
    requires k <= |redials|
  {
    Latest(w, Dials(w, pin, redials[..k]).0)
  }

  lemma {:induction false} LastPinConcat(pin: UplinkPin, a: seq<Dial>, b: seq<Dial>)
    ensures LastPin(pin, a + b) == LastPin(LastPin(pin, a), b)
    decreases |a|
  {
    if a == [] {
      assert a + b == b;
    } else {
      assert (a + b)[1..] == a[1..] + b;
      LastPinConcat(Moved(pin, a[0]), a[1..], b);
    }
  }

  lemma {:induction false} DialsConcat(t: Table, pin: UplinkPin, a: seq<Dial>, b: seq<Dial>)
    ensures var here := Dials(t, pin, a).0;
            Dials(t, pin, a + b).0 == here + Dials(Latest(t, here), LastPin(pin, a), b).0
    decreases |a|
  {
    if a == [] {
      assert a + b == b;
    } else {
      assert (a + b)[1..] == a[1..] + b;
      var first, p := DialTables(t, pin, a[0]).0, Moved(pin, a[0]);
      var mid := Latest(t, first);
      DialsConcat(mid, p, a[1..], b);
      var later := Dials(mid, p, a[1..]).0;
      assert Dials(t, pin, a).0 == first + later && Latest(t, first + later) == Latest(mid, later);
    }
  }

  lemma {:induction false} OneMoreDial(w: Table, pin: UplinkPin, redials: seq<Dial>, k: nat)
    requires k < |redials|
    ensures var p := LastPin(pin, redials[..k]);
            && LastPin(pin, redials[..k + 1]) == Moved(p, redials[k])
            && After(w, pin, redials, k + 1) == Latest(After(w, pin, redials, k),
                                                       DialTables(After(w, pin, redials, k), p, redials[k]).0)
  {
    assert redials[..k + 1] == redials[..k] + [redials[k]];
    DialsConcat(w, pin, redials[..k], [redials[k]]);
    LastPinConcat(pin, redials[..k], [redials[k]]);
    OneDial(After(w, pin, redials, k), LastPin(pin, redials[..k]), redials[k]);
  }

  lemma {:induction false} HalvesStand(w: Table, pin: UplinkPin, tun: string, redials: seq<Dial>, k: nat)
    requires k <= |redials| && Halves(w, tun)
    ensures Halves(After(w, pin, redials, k), tun)
  {
    DialsMovePins(w, pin, redials[..k]);
  }

  lemma {:induction false} DialPinnedIff(t0: Table, t: Table, pin: UplinkPin, tun: string, d: Dial)
    requires Halves(t, tun)
    ensures Pinned(t0, Latest(t, DialTables(t, pin, d).0), Moved(pin, d), tun) <==>
            !d.refused || PinRoute(Moved(pin, d)) in t || Halves(t0, tun)
  {
  }

  /** The table a set stands on once it is up. */
  function Stood(t0: Table, l: Life): Table {
    Latest(t0, l.up + l.tight)
  }

  lemma {:induction false} StandsWithHalves(t0: Table, pin: UplinkPin, tun: string, strict: Option<seq<Captured>>,
                                            faults: seq<bool>, strictFaults: seq<bool>, redials: seq<Dial>)
    requires Lived(t0, pin, tun, strict, faults, strictFaults, redials).ok
    ensures var l := Lived(t0, pin, tun, strict, faults, strictFaults, redials);
            && Halves(Stood(t0, l), tun) && PinRoute(pin) in Stood(t0, l)
            && l.dials == Dials(Stood(t0, l), pin, redials).0
  {
    var l := Lived(t0, pin, tun, strict, faults, strictFaults, redials);
    var t1 := Latest(t0, Climb(t0, BaseChanges(pin, tun, true), faults, true).0);
    BaseBringUp(t0, pin, tun, faults);
    if strict.None? {
      assert Stood(t0, l) == t1;
    } else {
      StrictBringUp(t0, t1, strict.value, strictFaults);
      assert Stood(t0, l) == Latest(t1, l.tight);
    }
  }

  /** Main result: between redials a standing set has its halves pinned to the server it last
      dialled exactly when that redial's pin was not refused, or was in the table already, or
      the halves were not the set's own. */
  lemma {:induction false} RedialPinnedIff(t0: Table, pin: UplinkPin, tun: string, strict: Option<seq<Captured>>,
                                           faults: seq<bool>, strictFaults: seq<bool>, redials: seq<Dial>, k: nat)
    requires Lived(t0, pin, tun, strict, faults, strictFaults, redials).ok && k < |redials|
    ensures var w := Stood(t0, Lived(t0, pin, tun, strict, faults, strictFaults, redials));
            var p := LastPin(pin, redials[..k + 1]);
            Pinned(t0, After(w, pin, redials, k + 1), p, tun) <==>
            !redials[k].refused || PinRoute(p) in After(w, pin, redials, k) || Halves(t0, tun)
  {
    var w := Stood(t0, Lived(t0, pin, tun, strict, faults, strictFaults, redials));
    StandsWithHalves(t0, pin, tun, strict, faults, strictFaults, redials);
    OneMoreDial(w, pin, redials, k);
    HalvesStand(w, pin, tun, redials, k);
    DialPinnedIff(t0, After(w, pin, redials, k), LastPin(pin, redials[..k]), tun, redials[k]);
  }

  /** Those are all the redial tables but one per move: the one between the old pin's removal
      and the new pin's addition. */
  lemma {:induction false} RedialTables(w: Table, pin: UplinkPin, redials: seq<Dial>, t: Table) returns (k: nat)
    requires t in Dials(w, pin, redials).0
    ensures k < |redials|
    ensures var p := LastPin(pin, redials[..k]);
            || t == After(w, pin, redials, k + 1)
            || (redials[k].server != p.addr && t == After(w, pin, redials, k) - {PinRoute(p)})
    decreases |redials|
  {
    var here := DialTables(w, pin, redials[0]).0;
    OneMoreDial(w, pin, redials, 0);
    if t in here {
      k := 0;
    } else {
      var mid, p := Latest(w, here), Moved(pin, redials[0]);
      var j := RedialTables(mid, p, redials[1..], t);
      k := j + 1;
      AfterShift(w, pin, redials, j);
      AfterShift(w, pin, redials, j + 1);
    }
  }

  lemma {:induction false} AfterShift(w: Table, pin: UplinkPin, redials: seq<Dial>, j: nat)
    requires j + 1 <= |redials|
    ensures var mid, p := Latest(w, DialTables(w, pin, redials[0]).0), Moved(pin, redials[0]);
            && After(w, pin, redials, j + 1) == After(mid, p, redials[1..], j)
            && LastPin(pin, redials[..j + 1]) == LastPin(p, redials[1..][..j])
  {
    assert redials[..j + 1] == [redials[0]] + redials[1..][..j];
    DialsConcat(w, pin, [redials[0]], redials[1..][..j]);
    LastPinConcat(pin, [redials[0]], redials[1..][..j]);
    OneDial(w, pin, redials[0]);
  }

  /** For instance a server that moved twice, the first move refused and the second accepted:
      in between the set stands unpinned, though its last redial went well. */
  lemma {:induction false} UnpinnedBetweenRedials(t0: Table, pin: UplinkPin, redials: seq<Dial>)
    requires t0 == {DefaultRoute(Captured(1, "eth0", 0))} && pin == OnLink(7, "eth0")
    requires redials == [Dial(8, true), Dial(9, false)]
    ensures var l := Lived(t0, pin, "tun0", None, [], [], redials);
            l.ok && !Pinned(t0, After(Stood(t0, l), pin, redials, 1), LastPin(pin, redials[..1]), "tun0")
  {
    var l := Lived(t0, pin, "tun0", None, [], [], redials);
    var cs := BaseChanges(pin, "tun0", true);
    AddsAreHeld(t0, cs);
    var w := Latest(t0, Climb(t0, cs, [], true).0);
    assert l == BaseLife(l.up, w, pin, "tun0", redials) && Stood(t0, l) == w;
    ClimbLeaves(t0, cs, [], true, PinRoute(OnLink(8, "eth0")));
    OneMoreDial(w, pin, redials, 0);
    assert redials[..0] == [] && After(w, pin, redials, 0) == w;
    RedialPinnedIff(t0, pin, "tun0", None, [], [], redials, 0);
  }
}
