/** What holds in every table a guard's life passes through, and what the last table is. */
module ExitRouteSafety {
  import opened Base
  import opened ExitRoutes

  /** IPv4 is routed: a default survives, or both halves are in. */
  ghost predicate Covered(t: Table, tun: string) {
    || (exists r :: r in t && IsDefault(r))
    || (Half(false, tun) in t && Half(true, tun) in t)
  }

  /** No half of the guard's own without the server pin. */
  predicate Pinned(t0: Table, t: Table, pin: UplinkPin, tun: string) {
    && (Half(false, tun) in t && Half(false, tun) !in t0 ==> PinRoute(pin) in t)
    && (Half(true, tun) in t && Half(true, tun) !in t0 ==> PinRoute(pin) in t)
  }

  /** A captured default whose priority fits the field an ioctl carries it in. */
  predicate Exact(d: Captured) {
    d.metric <= MAX_PRIORITY
  }

  /** Among the captured defaults the ioctls can name exactly, none present has a worse
      metric than one that is missing. */
  predicate Graded(t: Table, ds: seq<Captured>) {
    forall i, j | 0 <= i < |ds| && 0 <= j < |ds| && Exact(ds[i]) && Exact(ds[j]) ::
      DefaultRoute(ds[i]) in t && DefaultRoute(ds[j]) !in t ==> ds[i].metric <= ds[j].metric
  }

  predicate WorstFirst(ds: seq<Captured>) {
    forall i, j :: 0 <= i < j < |ds| ==> ds[i].metric >= ds[j].metric
  }

  predicate AllCaptured(t0: Table, ds: seq<Captured>) {
    forall i :: 0 <= i < |ds| ==> DefaultRoute(ds[i]) in t0
  }

  /** The defaults while the strict set moves: the first `k` captured are out, those from
      `m` on are back. */
  ghost predicate Shape(t0: Table, t: Table, ds: seq<Captured>, k: nat, m: nat)
    requires k <= |ds| && m <= |ds|
  {
    forall r | IsDefault(r) :: r in t <==> (r in t0 && r !in Routes(ds[..k])) || r in Routes(ds[m..])
  }

  ghost predicate SomeShape(t0: Table, t: Table, ds: seq<Captured>) {
    exists k: nat, m: nat | k <= |ds| && m <= |ds| :: Shape(t0, t, ds, k, m)
  }

  /** A shape with no captured default back yet. */
  ghost predicate Deleting(t0: Table, t: Table, ds: seq<Captured>) {
    exists k: nat | k <= |ds| :: Shape(t0, t, ds, k, |ds|)
  }

  lemma {:induction false} MissingIsEarly(t0: Table, t: Table, ds: seq<Captured>, k: nat, m: nat, gone: Route)
    returns (j: nat)
    requires k <= |ds| && m <= |ds| && Shape(t0, t, ds, k, m)
    requires gone in t0 && gone !in t && IsDefault(gone)
    ensures j < k && j < m && gone == Addressed(ds[j])
  {
    j :| 0 <= j < k && gone == Addressed(ds[..k][j]);
  }

  lemma {:induction false} PresentIsLate(t0: Table, t: Table, ds: seq<Captured>, k: nat, m: nat, i: nat)
    returns (i': nat)
    requires k <= |ds| && m <= |ds| && Shape(t0, t, ds, k, m)
    requires i < |ds| && Addressed(ds[i]) in t
    ensures i' < |ds| && (k <= i' || m <= i') && Addressed(ds[i]) == Addressed(ds[i'])
  {
    var there := Addressed(ds[i]);
    if there in Routes(ds[m..]) {
      var n: nat :| n < |ds| - m && there == Addressed(ds[m..][n]);
      i' := m + n;
    } else {
      i' := i;
    }
  }

  lemma {:induction false} ShapeIsGraded(t0: Table, t: Table, ds: seq<Captured>)
    requires SomeShape(t0, t, ds) && WorstFirst(ds) && AllCaptured(t0, ds)
    ensures Graded(t, ds)
  {
    var k: nat, m: nat :| k <= |ds| && m <= |ds| && Shape(t0, t, ds, k, m);
    forall i, j | 0 <= i < |ds| && 0 <= j < |ds| && Exact(ds[i]) && Exact(ds[j])
                  && DefaultRoute(ds[i]) in t && DefaultRoute(ds[j]) !in t
      ensures ds[i].metric <= ds[j].metric
    {
      var j' := MissingIsEarly(t0, t, ds, k, m, DefaultRoute(ds[j]));
      var i' := PresentIsLate(t0, t, ds, k, m, i);
      assert ds[j'].metric >= ds[i'].metric;
    }
  }

  /** Changes that name no default leave the shape alone. */
  lemma {:induction false} ShapeKept(t0: Table, t: Table, t': Table, ds: seq<Captured>, k: nat, m: nat)
    requires k <= |ds| && m <= |ds| && Shape(t0, t, ds, k, m)
    requires forall r | IsDefault(r) :: r in t <==> r in t'
    ensures Shape(t0, t', ds, k, m)
  {
  }

  lemma {:induction false} TightShape(t0: Table, w: Table, ds: seq<Captured>, k: nat)
    requires k <= |ds| + 2
    requires forall r | IsDefault(r) :: r in w <==> r in t0
    ensures Shape(t0, Effect(w, StrictChanges(ds, true)[..k]), ds, Deleted(k), |ds|)
  {
    assert ds[|ds|..] == [];
    forall r | IsDefault(r) {
      StrictUpAt(w, ds, k, r);
    }
  }

  lemma {:induction false} RestoreShape(t0: Table, w: Table, ds: seq<Captured>, k: nat, m: nat)
    requires k <= |ds| && m <= |ds| + 2 && Shape(t0, w, ds, k, |ds|)
    ensures |StrictDown(ds)| == |ds| + 2
    ensures Shape(t0, Effect(w, StrictDown(ds)[..m]), ds, k, Restored(|ds|, m))
  {
    assert ds[|ds|..] == [];
    StrictDownSteps(ds);
    forall r | IsDefault(r) {
      StrictDownAt(w, ds, m, r);
    }
  }

  /** Once every captured default is back, every original default is. */
  lemma {:induction false} RestoredAll(t0: Table, t: Table, ds: seq<Captured>, k: nat, r: Route)
    requires k <= |ds| && Shape(t0, t, ds, k, 0) && r in t0 && IsDefault(r)
    ensures r in t
  {
    if r in Routes(ds[..k]) {
      var i :| 0 <= i < k && r == Addressed(ds[..k][i]);
      assert ds[0..][i] == ds[i];
    }
  }

  // ---------------------------------------------------------------- phase by phase

  ghost predicate SameDefaults(t0: Table, t: Table) {
    forall r | IsDefault(r) :: r in t <==> r in t0
  }

  ghost predicate HasDefault(t: Table) {
    exists r :: r in t && IsDefault(r)
  }

  lemma {:induction false} UpTable(t0: Table, pin: UplinkPin, tun: string, t: Table)
    requires Along(t0, BaseChanges(pin, tun, true), t)
    ensures SameDefaults(t0, t) && Pinned(t0, t, pin, tun)
  {
    var k: nat :| k <= 3 && t == Effect(t0, BaseChanges(pin, tun, true)[..k]);
    forall r | IsDefault(r) {
      BaseUpAt(t0, pin, tun, k, r);
    }
    BaseUpAt(t0, pin, tun, k, Half(false, tun));
    BaseUpAt(t0, pin, tun, k, Half(true, tun));
    BaseUpAt(t0, pin, tun, k, PinRoute(pin));
  }

  /** A base teardown takes the pin off last. */
  lemma {:induction false} BaseDownTable(t0: Table, w: Table, pin: UplinkPin, tun: string, t: Table)
    requires Along(w, BaseDown(pin, tun), t)
    ensures SameDefaults(w, t)
    ensures Pinned(t0, w, pin, tun) ==> Pinned(t0, t, pin, tun)
  {
    var k: nat :| k <= 3 && t == Effect(w, BaseDown(pin, tun)[..k]);
    forall r | IsDefault(r) {
      BaseDownAt(w, pin, tun, k, r);
    }
    BaseDownAt(w, pin, tun, k, Half(false, tun));
    BaseDownAt(w, pin, tun, k, Half(true, tun));
    BaseDownAt(w, pin, tun, k, PinRoute(pin));
  }

  /** The strict set never touches a pin or an IPv4 half. */
  lemma {:induction false} TightTable(t0: Table, w: Table, ds: seq<Captured>, t: Table)
    requires SameDefaults(t0, w) && Along(w, StrictChanges(ds, true), t)
    ensures Deleting(t0, t, ds)
    ensures forall r: Route | r.V4? && !IsDefault(r) :: r in t <==> r in w
  {
    var k: nat :| k <= |ds| + 2 && t == Effect(w, StrictChanges(ds, true)[..k]);
    TightShape(t0, w, ds, k);
    forall r: Route | r.V4? && !IsDefault(r)
      ensures r in t <==> r in w
    {
      StrictUpAt(w, ds, k, r);
    }
  }

  lemma {:induction false} StrictDownTable(t0: Table, w: Table, ds: seq<Captured>, k: nat, t: Table)
    requires k <= |ds| && Shape(t0, w, ds, k, |ds|) && Along(w, StrictDown(ds), t)
    ensures SomeShape(t0, t, ds)
    ensures forall r: Route | r.V4? && !IsDefault(r) :: r in t <==> r in w
  {
    StrictDownSteps(ds);
    var m: nat :| m <= |ds| + 2 && t == Effect(w, StrictDown(ds)[..m]);
    RestoreShape(t0, w, ds, k, m);
    forall r: Route | r.V4? && !IsDefault(r)
      ensures r in t <==> r in w
    {
      StrictDownAt(w, ds, m, r);
    }
  }

  /** Redials move pins and nothing else. */
  lemma {:induction false} DialsMovePins(t: Table, pin: UplinkPin, ds: seq<Dial>)
    ensures forall t' :: t' in Dials(t, pin, ds).0 ==> forall r | !IsPin(r) :: r in t' <==> r in t
    ensures forall r | !IsPin(r) :: r in Latest(t, Dials(t, pin, ds).0) <==> r in t
    decreases |ds|
  {
    if ds != [] {
      var here := DialTables(t, pin, ds[0]).0;
      DialsMovePins(Latest(t, here), Moved(pin, ds[0]), ds[1..]);
    }
  }

  // ---------------------------------------------------------------- every table of a life

  predicate Halves(t: Table, tun: string) {
    Half(false, tun) in t && Half(true, tun) in t
  }

  lemma {:induction false} BaseBringUp(t0: Table, pin: UplinkPin, tun: string, faults: seq<bool>)
    ensures var (up, based) := Climb(t0, BaseChanges(pin, tun, true), faults, true);
            && (forall t :: t in up ==> SameDefaults(t0, t) && Pinned(t0, t, pin, tun))
            && SameDefaults(t0, Latest(t0, up)) && Pinned(t0, Latest(t0, up), pin, tun)
            && (based ==> Halves(Latest(t0, up), tun) && PinRoute(pin) in Latest(t0, up))
  {
    var cs := BaseChanges(pin, tun, true);
    var (up, based) := Climb(t0, cs, faults, true);
    ClimbTables(t0, cs, faults, true);
    forall t | t in up {
      UpTable(t0, pin, tun, t);
    }
    UpTable(t0, pin, tun, Latest(t0, up));
    if based {
      assert cs[..3] == cs;
      BaseUpAt(t0, pin, tun, 3, Half(false, tun));
      BaseUpAt(t0, pin, tun, 3, Half(true, tun));
      BaseUpAt(t0, pin, tun, 3, PinRoute(pin));
    }
  }

  lemma {:induction false} StrictBringUp(t0: Table, t1: Table, ds: seq<Captured>, faults: seq<bool>)
    requires SameDefaults(t0, t1)
    ensures var (tight, ok) := Climb(t1, StrictChanges(ds, true), faults, false);
            && (forall t :: t in tight ==>
                  SomeShape(t0, t, ds) && forall r: Route | r.V4? && !IsDefault(r) :: r in t <==> r in t1)
            && Deleting(t0, Latest(t1, tight), ds)
            && (forall r: Route | r.V4? && !IsDefault(r) :: r in Latest(t1, tight) <==> r in t1)
  {
    var cs := StrictChanges(ds, true);
    ClimbTables(t1, cs, faults, false);
    forall t | t in Climb(t1, cs, faults, false).0
      ensures SomeShape(t0, t, ds) && forall r: Route | r.V4? && !IsDefault(r) :: r in t <==> r in t1
    {
      TightTable(t0, t1, ds, t);
    }
    TightTable(t0, t1, ds, Latest(t1, Climb(t1, cs, faults, false).0));
  }

  /** Strict teardown: the halves stay until every original default is back. */
  lemma {:induction false} StrictTeardown(t0: Table, w: Table, pin: UplinkPin, tun: string, ds: seq<Captured>, t: Table)
    requires HasDefault(t0) && Halves(w, tun)
    requires Deleting(t0, w, ds)
    requires t in Sweep(w, StrictDown(ds) + BaseDown(pin, tun))
    ensures Covered(t, tun) && SomeShape(t0, t, ds)
    ensures Pinned(t0, w, pin, tun) ==> Pinned(t0, t, pin, tun)
  {
    var k: nat :| k <= |ds| && Shape(t0, w, ds, k, |ds|);
    SweepTables(w, StrictDown(ds) + BaseDown(pin, tun));
    AlongConcat(w, StrictDown(ds), BaseDown(pin, tun), t);
    if Along(w, StrictDown(ds), t) {
      StrictDownTable(t0, w, ds, k, t);
    } else {
      var w' := Effect(w, StrictDown(ds));
      StrictRestored(t0, w, ds, k);
      BaseDownTable(t0, w', pin, tun, t);
      ShapeKept(t0, w', t, ds, k, 0);
      var r :| r in t0 && IsDefault(r);
      RestoredAll(t0, t, ds, k, r);
    }
  }

  lemma {:induction false} StrictRestored(t0: Table, w: Table, ds: seq<Captured>, k: nat)
    requires k <= |ds| && Shape(t0, w, ds, k, |ds|)
    ensures Shape(t0, Effect(w, StrictDown(ds)), ds, k, 0)
    ensures forall r: Route | r.V4? && !IsDefault(r) :: r in Effect(w, StrictDown(ds)) <==> r in w
  {
    var cs := StrictDown(ds);
    StrictDownSteps(ds);
    assert cs[..|ds| + 2] == cs;
    RestoreShape(t0, w, ds, k, |ds| + 2);
    StrictDownTable(t0, w, ds, k, Effect(w, cs));
  }

  lemma {:induction false} BaseTeardown(t0: Table, w: Table, pin: UplinkPin, tun: string, t: Table)
    requires SameDefaults(t0, w) && t in Sweep(w, BaseDown(pin, tun))
    ensures SameDefaults(t0, t)
    ensures Pinned(t0, w, pin, tun) ==> Pinned(t0, t, pin, tun)
  {
    SweepTables(w, BaseDown(pin, tun));
    BaseDownTable(t0, w, pin, tun, t);
  }

  function Tables(l: Life): seq<Table> {
    l.up + l.tight + l.dials + l.down
  }

  function Defaults(strict: Option<seq<Captured>>): seq<Captured> {
    match strict
    case None => []
    case Some(ds) => ds
  }

  lemma {:induction false} SameIsSafe(t0: Table, t: Table, tun: string, ds: seq<Captured>)
    requires HasDefault(t0) && SameDefaults(t0, t)
    ensures Covered(t, tun) && SomeShape(t0, t, ds)
  {
    assert ds[..0] == [] && ds[|ds|..] == [];
    assert Shape(t0, t, ds, 0, |ds|);
  }

  /** Main result: whatever step is refused and however the guard is redialled, every table
      of its life routes IPv4 and keeps the better defaults. */
  lemma {:induction false} EveryTableIsSafe(t0: Table, pin: UplinkPin, tun: string, strict: Option<seq<Captured>>,
                         faults: seq<bool>, strictFaults: seq<bool>, redials: seq<Dial>, t: Table)
    requires HasDefault(t0)
    requires WorstFirst(Defaults(strict)) && AllCaptured(t0, Defaults(strict))
    requires t in Tables(Lived(t0, pin, tun, strict, faults, strictFaults, redials))
    ensures Covered(t, tun) && Graded(t, Defaults(strict))
  {
    var ds := Defaults(strict);
    var l := Lived(t0, pin, tun, strict, faults, strictFaults, redials);
    var (up, based) := Climb(t0, BaseChanges(pin, tun, true), faults, true);
    var t1 := Latest(t0, up);
    BaseBringUp(t0, pin, tun, faults);
    if t in l.up {
      SameIsSafe(t0, t, tun, ds);
    } else if !based {
      BaseTeardown(t0, t1, pin, tun, t);
      SameIsSafe(t0, t, tun, ds);
    } else if strict.None? {
      var (dials, last) := Dials(t1, pin, redials);
      DialsMovePins(t1, pin, redials);
      if t in l.down {
        BaseTeardown(t0, Latest(t1, dials), last, tun, t);
      }
      SameIsSafe(t0, t, tun, ds);
    } else {
      StrictTablesSafe(t0, t1, pin, tun, ds, strictFaults, redials, t);
    }
    ShapeIsGraded(t0, t, ds);
  }

  lemma {:induction false} StrictTablesSafe(t0: Table, t1: Table, pin: UplinkPin, tun: string, ds: seq<Captured>,
                         faults: seq<bool>, redials: seq<Dial>, t: Table)
    requires HasDefault(t0) && SameDefaults(t0, t1) && Halves(t1, tun)
    requires var (tight, ok) := Climb(t1, StrictChanges(ds, true), faults, false);
             var t2 := Latest(t1, tight);
             var (dials, last) := if ok then Dials(t2, pin, redials) else ([], pin);
             t in tight || t in dials || t in Sweep(Latest(t2, dials), StrictDown(ds) + BaseDown(last, tun))
    ensures Covered(t, tun) && SomeShape(t0, t, ds)
  {
    var (tight, ok) := Climb(t1, StrictChanges(ds, true), faults, false);
    var t2 := Latest(t1, tight);
    StrictBringUp(t0, t1, ds, faults);
    if t !in tight {
      var k: nat :| k <= |ds| && Shape(t0, t2, ds, k, |ds|);
      DialsMovePins(t2, pin, redials);
      var (dials, last) := if ok then Dials(t2, pin, redials) else ([], pin);
      if t in dials {
        ShapeKept(t0, t2, t, ds, k, |ds|);
      } else {
        ShapeKept(t0, t2, Latest(t2, dials), ds, k, |ds|);
        StrictTeardown(t0, Latest(t2, dials), last, tun, ds, t);
      }
    }
  }

  // ---------------------------------------------------------------- the pin

  /** A redial that answers well leaves its own pin in and the old address's pin out. */
  lemma {:induction false} DialHolds(t: Table, pin: UplinkPin, d: Dial)
    ensures var (here, a) := DialTables(t, pin, d);
            && (!Fatal(a, true) ==> PinRoute(Moved(pin, d)) in Latest(t, here))
            && (!d.refused ==> !Fatal(a, true))
            && (pin.addr != d.server ==> PinRoute(pin) !in Latest(t, here))
            && Moved(pin, d).addr == d.server
  {
  }

  lemma {:induction false} LastDialHolds(t: Table, pin: UplinkPin, ds: seq<Dial>)
    requires ds != [] ==> !ds[|ds| - 1].refused
    requires ds == [] ==> PinRoute(pin) in t
    ensures PinRoute(Dials(t, pin, ds).1) in Latest(t, Dials(t, pin, ds).0)
    decreases |ds|
  {
    if ds != [] {
      DialHolds(t, pin, ds[0]);
      LastDialHolds(Latest(t, DialTables(t, pin, ds[0]).0), Moved(pin, ds[0]), ds[1..]);
    }
  }

  /** The pin the guard holds after its redials. */
  function LastPin(pin: UplinkPin, ds: seq<Dial>): UplinkPin
    decreases |ds|
  {
    if ds == [] then pin else LastPin(Moved(pin, ds[0]), ds[1..])
  }

  lemma {:induction false} DialsEndOn(t: Table, pin: UplinkPin, ds: seq<Dial>)
    ensures Dials(t, pin, ds).1 == LastPin(pin, ds)
    decreases |ds|
  {
    if ds != [] {
      DialsEndOn(Latest(t, DialTables(t, pin, ds[0]).0), Moved(pin, ds[0]), ds[1..]);
    }
  }

  /** Main result: outside the redials, no table of a life holds a half of the guard's own
      without the pin that keeps the server reachable. */
  lemma {:induction false} NoHalfWithoutPin(t0: Table, pin: UplinkPin, tun: string, strict: Option<seq<Captured>>,
                         faults: seq<bool>, strictFaults: seq<bool>, redials: seq<Dial>, t: Table)
    requires HasDefault(t0)
    requires redials != [] ==> !redials[|redials| - 1].refused
    ensures var l := Lived(t0, pin, tun, strict, faults, strictFaults, redials);
            && (t in l.up + l.tight ==> Pinned(t0, t, pin, tun))
            && (t in l.down ==> Pinned(t0, t, if l.ok then LastPin(pin, redials) else pin, tun))
  {
    var l := Lived(t0, pin, tun, strict, faults, strictFaults, redials);
    var (up, based) := Climb(t0, BaseChanges(pin, tun, true), faults, true);
    var t1 := Latest(t0, up);
    BaseBringUp(t0, pin, tun, faults);
    if !based {
      if t in l.down {
        BaseTeardown(t0, t1, pin, tun, t);
      }
    } else if strict.None? {
      LastDialHolds(t1, pin, redials);
      DialsEndOn(t1, pin, redials);
      DialsMovePins(t1, pin, redials);
      if t in l.down {
        BaseTeardown(t0, Latest(t1, Dials(t1, pin, redials).0), LastPin(pin, redials), tun, t);
      }
    } else {
      StrictTablesPinned(t0, t1, pin, tun, strict.value, strictFaults, redials, t);
    }
  }

  lemma {:induction false} StrictTablesPinned(t0: Table, t1: Table, pin: UplinkPin, tun: string, ds: seq<Captured>,
                           faults: seq<bool>, redials: seq<Dial>, t: Table)
    requires HasDefault(t0) && SameDefaults(t0, t1) && Halves(t1, tun) && PinRoute(pin) in t1
    requires redials != [] ==> !redials[|redials| - 1].refused
    ensures var (tight, ok) := Climb(t1, StrictChanges(ds, true), faults, false);
            var t2 := Latest(t1, tight);
            var (dials, last) := if ok then Dials(t2, pin, redials) else ([], pin);
            && (t in tight ==> Pinned(t0, t, pin, tun))
            && last == (if ok then LastPin(pin, redials) else pin)
            && (t in Sweep(Latest(t2, dials), StrictDown(ds) + BaseDown(last, tun)) ==> Pinned(t0, t, last, tun))
  {
    var (tight, ok) := Climb(t1, StrictChanges(ds, true), faults, false);
    var t2 := Latest(t1, tight);
    StrictBringUp(t0, t1, ds, faults);
    assert PinRoute(pin) in t2 && Halves(t2, tun);
    var k: nat :| k <= |ds| && Shape(t0, t2, ds, k, |ds|);
    var (dials, last) := if ok then Dials(t2, pin, redials) else ([], pin);
    LastDialHolds(t2, pin, redials);
    DialsEndOn(t2, pin, redials);
    DialsMovePins(t2, pin, redials);
    ShapeKept(t0, t2, Latest(t2, dials), ds, k, |ds|);
    if t in Sweep(Latest(t2, dials), StrictDown(ds) + BaseDown(last, tun)) {
      StrictTeardown(t0, Latest(t2, dials), last, tun, ds, t);
    }
  }

  // ---------------------------------------------------------------- the last table

  /** Every pin a guard programs over its redials. */
  function Pins(pin: UplinkPin, ds: seq<Dial>): set<Route>
    decreases |ds|
  {
    {PinRoute(pin)} + if ds == [] then {} else Pins(Moved(pin, ds[0]), ds[1..])
  }

  lemma {:induction false} DialsLeave(t: Table, pin: UplinkPin, ds: seq<Dial>, r: Route)
    requires r != PinRoute(LastPin(pin, ds))
    ensures r in Latest(t, Dials(t, pin, ds).0) <==> r in t && r !in Pins(pin, ds)
    ensures PinRoute(LastPin(pin, ds)) in Pins(pin, ds)
    ensures forall p :: p in Pins(pin, ds) ==> IsPin(p)
    decreases |ds|
  {
    if ds != [] {
      var mid := Latest(t, DialTables(t, pin, ds[0]).0);
      DialsLeave(mid, Moved(pin, ds[0]), ds[1..], r);
      assert PinRoute(Moved(pin, ds[0])) in Pins(Moved(pin, ds[0]), ds[1..]);
    }
  }

  function Own(pins: set<Route>, tun: string, six: bool): set<Route> {
    pins + {Half(false, tun), Half(true, tun)} + if six then {V6Half(false), V6Half(true)} else {}
  }

  /** A base life: what is left after the redials and the teardown. */
  lemma {:induction false} BaseLeaves(t0: Table, w: Table, pin: UplinkPin, tun: string, r: Route)
    ensures r in Effect(w, BaseDown(pin, tun)) <==> r in w && r !in Own({PinRoute(pin)}, tun, false)
  {
    assert BaseDown(pin, tun)[..3] == BaseDown(pin, tun);
    BaseDownAt(w, pin, tun, 3, r);
  }

  lemma {:induction false} StrictLeaves(w: Table, pin: UplinkPin, tun: string, ds: seq<Captured>, r: Route)
    ensures r in Effect(w, StrictDown(ds) + BaseDown(pin, tun)) <==>
            (r in w && r !in Own({PinRoute(pin)}, tun, true)) || r in Routes(ds)
  {
    StrictDownLeaves(w, ds, r);
    ThenBaseLeaves(w, StrictDown(ds), pin, tun, r);
    DefaultsAreNotOwn(ds, pin, tun, r);
  }

  lemma {:induction false} ThenBaseLeaves(w: Table, cs: seq<Change>, pin: UplinkPin, tun: string, r: Route)
    ensures r in Effect(w, cs + BaseDown(pin, tun)) <==> r in Effect(w, cs) && r !in Own({PinRoute(pin)}, tun, false)
  {
    EffectConcat(w, cs, BaseDown(pin, tun));
    BaseLeaves(w, Effect(w, cs), pin, tun, r);
  }

  lemma {:induction false} DefaultsAreNotOwn(ds: seq<Captured>, pin: UplinkPin, tun: string, r: Route)
    ensures r in Routes(ds) ==> r !in Own({PinRoute(pin)}, tun, true)
  {
  }

  lemma {:induction false} StrictDownLeaves(w: Table, ds: seq<Captured>, r: Route)
    ensures r in Effect(w, StrictDown(ds)) <==>
            (r in w && r != V6Half(false) && r != V6Half(true)) || r in Routes(ds)
  {
    var cs := StrictDown(ds);
    if r.V4? {
      StrictDownSteps(ds);
      assert cs[..|ds| + 2] == cs && ds[0..] == ds;
      StrictDownAt(w, ds, |ds| + 2, r);
    } else {
      StrictDownOn6(w, ds, r);
    }
  }

  /** Bring-up adds or deletes only what it names. */
  lemma {:induction false} ClimbLeaves(t: Table, cs: seq<Change>, faults: seq<bool>, lenient: bool, r: Route)
    requires forall i :: 0 <= i < |cs| ==> cs[i].route != r
    ensures r in Latest(t, Climb(t, cs, faults, lenient).0) <==> r in t
  {
    ClimbTables(t, cs, faults, lenient);
    var t' := Latest(t, Climb(t, cs, faults, lenient).0);
    var k: nat :| k <= |cs| && t' == Effect(t, cs[..k]);
    EffectOn(t, cs[..k], r, true);
  }

  function LastTable(t0: Table, l: Life): Table {
    Latest(t0, Tables(l))
  }

  /** The pins, halves and IPv6 halves a life programs, whether or not they were its own. */
  function Programmed(t0: Table, pin: UplinkPin, tun: string, strict: Option<seq<Captured>>,
                      faults: seq<bool>, l: Life, redials: seq<Dial>): set<Route> {
    var based := Climb(t0, BaseChanges(pin, tun, true), faults, true).1;
    Own(if l.ok then Pins(pin, redials) else {PinRoute(pin)}, tun, based && strict.Some?)
  }

  /** The defaults a life puts back: none unless its strict set was started. */
  function PutBack(t0: Table, pin: UplinkPin, tun: string, strict: Option<seq<Captured>>,
                   faults: seq<bool>): set<Route> {
    if Climb(t0, BaseChanges(pin, tun, true), faults, true).1 then Routes(Defaults(strict)) else {}
  }

  lemma {:induction false} EndsSwept(t0: Table, l: Life, w: Table, cs: seq<Change>)
    requires l.down == Sweep(w, cs) && cs != []
    ensures LastTable(t0, l) == Effect(w, cs)
  {
    SweepTables(w, cs);
  }

  /** Main result: a failed bring-up or a later drop leaves the initial table, less every
      route the guard programs, plus every default it put back. */
  lemma {:induction false} LifeLeaves(t0: Table, pin: UplinkPin, tun: string, strict: Option<seq<Captured>>,
                   faults: seq<bool>, strictFaults: seq<bool>, redials: seq<Dial>)
    ensures var l := Lived(t0, pin, tun, strict, faults, strictFaults, redials);
            LastTable(t0, l) == t0 - Programmed(t0, pin, tun, strict, faults, l, redials)
                                + PutBack(t0, pin, tun, strict, faults)
  {
    var l := Lived(t0, pin, tun, strict, faults, strictFaults, redials);
    forall r
      ensures r in LastTable(t0, l) <==>
              (r in t0 && r !in Programmed(t0, pin, tun, strict, faults, l, redials))
              || r in PutBack(t0, pin, tun, strict, faults)
    {
      LifeLeavesRoute(t0, pin, tun, strict, faults, strictFaults, redials, r);
    }
  }

  /** A base life: the redials, then the teardown of the last pin and the halves. */
  lemma {:induction false} BaseLifeLeaves(t0: Table, up: seq<Table>, t1: Table, pin: UplinkPin, tun: string,
                                          redials: seq<Dial>, r: Route)
    requires r !in Own({PinRoute(pin)}, tun, false) ==> (r in t1 <==> r in t0)
    ensures r in LastTable(t0, BaseLife(up, t1, pin, tun, redials)) <==>
            r in t0 && r !in Own(Pins(pin, redials), tun, false)
  {
    var (dials, last) := Dials(t1, pin, redials);
    var w := Latest(t1, dials);
    EndsSwept(t0, BaseLife(up, t1, pin, tun, redials), w, BaseDown(last, tun));
    BaseLeaves(t0, w, last, tun, r);
    DialsEndOn(t1, pin, redials);
    DialsTouch(t1, pin, redials, r);
    FirstIsPinned(pin, redials);
  }

  lemma {:induction false} FirstIsPinned(pin: UplinkPin, ds: seq<Dial>)
    ensures PinRoute(pin) in Pins(pin, ds)
  {
  }

  lemma {:induction false} BaseChangesLeave(t0: Table, pin: UplinkPin, tun: string, faults: seq<bool>, r: Route)
    ensures r !in Own({PinRoute(pin)}, tun, false) ==>
              (r in Latest(t0, Climb(t0, BaseChanges(pin, tun, true), faults, true).0) <==> r in t0)
  {
    if r !in Own({PinRoute(pin)}, tun, false) {
      ClimbLeaves(t0, BaseChanges(pin, tun, true), faults, true, r);
    }
  }

  lemma {:induction false} LifeLeavesRoute(t0: Table, pin: UplinkPin, tun: string, strict: Option<seq<Captured>>,
                        faults: seq<bool>, strictFaults: seq<bool>, redials: seq<Dial>, r: Route)
    ensures var l := Lived(t0, pin, tun, strict, faults, strictFaults, redials);
            r in LastTable(t0, l) <==>
            (r in t0 && r !in Programmed(t0, pin, tun, strict, faults, l, redials))
            || r in PutBack(t0, pin, tun, strict, faults)
  {
    var l := Lived(t0, pin, tun, strict, faults, strictFaults, redials);
    var (up, based) := Climb(t0, BaseChanges(pin, tun, true), faults, true);
    var t1 := Latest(t0, up);
    BaseChangesLeave(t0, pin, tun, faults, r);
    if !based {
      EndsSwept(t0, l, t1, BaseDown(pin, tun));
      BaseLeaves(t0, t1, pin, tun, r);
    } else if strict.None? {
      assert l == BaseLife(up, t1, pin, tun, redials);
      BaseLifeLeaves(t0, up, t1, pin, tun, redials, r);
    } else {
      assert l == StrictLife(up, t1, pin, tun, strict.value, strictFaults, redials);
      StrictLifeLeaves(t0, up, t1, pin, tun, strict.value, strictFaults, redials, r);
    }
  }

  /** Redials leave every route they do not name, and their own earlier pins are out. */
  lemma {:induction false} DialsTouch(t: Table, pin: UplinkPin, ds: seq<Dial>, r: Route)
    ensures r != PinRoute(LastPin(pin, ds)) ==> (r in Latest(t, Dials(t, pin, ds).0) <==> r in t && r !in Pins(pin, ds))
    ensures r == PinRoute(LastPin(pin, ds)) ==> r in Pins(pin, ds)
  {
    if r != PinRoute(LastPin(pin, ds)) {
      DialsLeave(t, pin, ds, r);
    } else {
      LastIsPinned(pin, ds);
    }
  }

  lemma {:induction false} LastIsPinned(pin: UplinkPin, ds: seq<Dial>)
    ensures PinRoute(LastPin(pin, ds)) in Pins(pin, ds)
    decreases |ds|
  {
    if ds != [] {
      LastIsPinned(Moved(pin, ds[0]), ds[1..]);
    }
  }

  lemma {:induction false} StrictChangesLeave(t1: Table, ds: seq<Captured>, faults: seq<bool>, r: Route)
    ensures r !in Routes(ds) && r != V6Half(false) && r != V6Half(true) ==>
              (r in Latest(t1, Climb(t1, StrictChanges(ds, true), faults, false).0) <==> r in t1)
  {
    if r !in Routes(ds) && r != V6Half(false) && r != V6Half(true) {
      ClimbLeaves(t1, StrictChanges(ds, true), faults, false, r);
    }
  }

  /** A strict life: its own unwind when it does not stand, else the redials and the teardown. */
  lemma {:induction false} StrictLifeLeaves(t0: Table, up: seq<Table>, t1: Table, pin: UplinkPin, tun: string,
                                            ds: seq<Captured>, faults: seq<bool>, redials: seq<Dial>, r: Route)
    requires r !in Own({PinRoute(pin)}, tun, false) ==> (r in t1 <==> r in t0)
    ensures var l := StrictLife(up, t1, pin, tun, ds, faults, redials);
            r in LastTable(t0, l) <==>
            (r in t0 && r !in Own(if l.ok then Pins(pin, redials) else {PinRoute(pin)}, tun, true)) || r in Routes(ds)
  {
    var l := StrictLife(up, t1, pin, tun, ds, faults, redials);
    var (tight, ok) := Climb(t1, StrictChanges(ds, true), faults, false);
    var t2 := Latest(t1, tight);
    StrictChangesLeave(t1, ds, faults, r);
    if ok {
      var (dials, last) := Dials(t2, pin, redials);
      EndsSwept(t0, l, Latest(t2, dials), StrictDown(ds) + BaseDown(last, tun));
      DialsEndOn(t2, pin, redials);
      DialsTouch(t2, pin, redials, r);
      FirstIsPinned(pin, redials);
      StrictTearsDown(t0, t1, t2, Latest(t2, dials), pin, last, Pins(pin, redials), tun, ds, r);
    } else {
      EndsSwept(t0, l, t2, StrictDown(ds) + BaseDown(pin, tun));
      StrictTearsDown(t0, t1, t2, t2, pin, pin, {PinRoute(pin)}, tun, ds, r);
    }
  }

  /** The strict teardown, from what is known of the table it starts on. */
  lemma {:induction false} StrictTearsDown(t0: Table, t1: Table, t2: Table, w: Table, pin: UplinkPin, last: UplinkPin,
                                           pins: set<Route>, tun: string, ds: seq<Captured>, r: Route)
    requires r !in Own({PinRoute(pin)}, tun, false) ==> (r in t1 <==> r in t0)
    requires r !in Routes(ds) && r != V6Half(false) && r != V6Half(true) ==> (r in t2 <==> r in t1)
    requires r != PinRoute(last) ==> (r in w <==> r in t2 && (r !in pins || r == PinRoute(last)))
    requires PinRoute(pin) in pins && (r == PinRoute(last) ==> r in pins)
    ensures r in Effect(w, StrictDown(ds) + BaseDown(last, tun)) <==>
            (r in t0 && r !in Own(pins, tun, true)) || r in Routes(ds)
  {
    StrictLeaves(w, last, tun, ds, r);
  }

  lemma {:induction false} PutBackIsNotOwn(t0: Table, pin: UplinkPin, tun: string, strict: Option<seq<Captured>>,
                        faults: seq<bool>, l: Life, redials: seq<Dial>)
    ensures PutBack(t0, pin, tun, strict, faults) !! Programmed(t0, pin, tun, strict, faults, l, redials)
  {
    PinsArePins(pin, redials);
    forall r | r in Programmed(t0, pin, tun, strict, faults, l, redials)
      ensures !IsDefault(r)
    {
    }
  }

  /** The table is the initial one less the guard's own routes exactly when every default
      it puts back was there, */
  lemma {:induction false} LifeRestores(t0: Table, pin: UplinkPin, tun: string, strict: Option<seq<Captured>>,
                     faults: seq<bool>, strictFaults: seq<bool>, redials: seq<Dial>)
    ensures var l := Lived(t0, pin, tun, strict, faults, strictFaults, redials);
            LastTable(t0, l) == t0 - Programmed(t0, pin, tun, strict, faults, l, redials)
            <==> PutBack(t0, pin, tun, strict, faults) <= t0
  {
    var l := Lived(t0, pin, tun, strict, faults, strictFaults, redials);
    LifeLeaves(t0, pin, tun, strict, faults, strictFaults, redials);
    PutBackIsNotOwn(t0, pin, tun, strict, faults, l, redials);
  }

  /** which holds whenever its captured defaults came from the table at priorities an ioctl
      can carry. */
  lemma {:induction false} ExactDefaultsAreThere(t0: Table, pin: UplinkPin, tun: string, strict: Option<seq<Captured>>,
                                                 faults: seq<bool>)
    requires AllCaptured(t0, Defaults(strict))
    requires forall i :: 0 <= i < |Defaults(strict)| ==> Exact(Defaults(strict)[i])
    ensures PutBack(t0, pin, tun, strict, faults) <= t0
  {
    var ds := Defaults(strict);
    forall r | r in Routes(ds)
      ensures r in t0
    {
      var i :| 0 <= i < |ds| && r == Addressed(ds[i]);
      assert DefaultRoute(ds[i]) == r;
    }
  }

  lemma {:induction false} PinsArePins(pin: UplinkPin, ds: seq<Dial>)
    ensures forall p :: p in Pins(pin, ds) ==> IsPin(p)
    decreases |ds|
  {
    if ds != [] {
      PinsArePins(Moved(pin, ds[0]), ds[1..]);
    }
  }

  lemma {:induction false} AddsAreHeld(t: Table, cs: seq<Change>)
    requires forall i :: 0 <= i < |cs| ==> cs[i].add
    ensures Climb(t, cs, [], true).1
    decreases |cs|
  {
    if cs != [] {
      var (next, a) := Apply(t, cs[0], false);
      assert !Fatal(a, true) && next == Put(t, cs[0]);
      AddsAreHeld(next, cs[1..]);
    }
  }

  lemma {:induction false} DeletesFindAll(t: Table, ds: seq<Captured>, faults: seq<bool>)
    requires Climb(t, DefaultChanges(ds, false), faults, false).1
    ensures Routes(ds) <= t
    decreases |ds|
  {
    if ds != [] {
      var cs := DefaultChanges(ds, false);
      assert cs[1..] == DefaultChanges(ds[1..], false);
      DeletesFindAll(Put(t, cs[0]), ds[1..], if faults == [] then [] else faults[1..]);
    }
  }

  /** Strict bring-up succeeds only if its ioctls name routes the table holds. */
  lemma {:induction false} StrictNeedsAll(t: Table, ds: seq<Captured>, faults: seq<bool>)
    requires Climb(t, StrictChanges(ds, true), faults, false).1
    ensures Routes(ds) <= t
  {
    var cs := StrictChanges(ds, true);
    var rest := if faults == [] then [] else faults[1..];
    var later := if rest == [] then [] else rest[1..];
    var t' := Put(t, cs[0]);
    assert Climb(t', cs[1..], rest, false).1;
    assert cs[1..][1..] == DefaultChanges(ds, false);
    assert Climb(Put(t', cs[1]), DefaultChanges(ds, false), later, false).1;
    DeletesFindAll(Put(t', cs[1]), ds, later);
  }

  /** A captured default at a priority no ioctl can carry: strict bring-up fails at its delete,
      and the unwind adds a default the table never held. */
  lemma {:induction false} UnnameableDefaultIsDuplicated(t0: Table, pin: UplinkPin, tun: string, ds: seq<Captured>,
                                                         i: nat, strictFaults: seq<bool>, redials: seq<Dial>)
    requires i < |ds| && Addressed(ds[i]) !in t0
    ensures var l := Lived(t0, pin, tun, Some(ds), [], strictFaults, redials);
            !l.ok && Addressed(ds[i]) in LastTable(t0, l)
  {
    var l := Lived(t0, pin, tun, Some(ds), [], strictFaults, redials);
    var cs := BaseChanges(pin, tun, true);
    AddsAreHeld(t0, cs);
    var t1 := Latest(t0, Climb(t0, cs, [], true).0);
    ClimbLeaves(t0, cs, [], true, Addressed(ds[i]));
    if l.ok {
      StrictNeedsAll(t1, ds, strictFaults);
    }
    LifeLeaves(t0, pin, tun, Some(ds), [], strictFaults, redials);
  }

  /** For instance a single default at priority 40000 comes back with a twin at 32766. */
  lemma {:induction false} TwinDefault()
    ensures var d := Captured(1, "eth0", 40_000);
            var l := Lived({DefaultRoute(d)}, OnLink(7, "eth0"), "tun0", Some([d]), [], [], []);
            AllCaptured({DefaultRoute(d)}, [d]) && !l.ok
            && DefaultAt(d, MAX_PRIORITY) in LastTable({DefaultRoute(d)}, l)
  {
    var d := Captured(1, "eth0", 40_000);
    UnnameableDefaultIsDuplicated({DefaultRoute(d)}, OnLink(7, "eth0"), "tun0", [d], 0, [], []);
  }
}
