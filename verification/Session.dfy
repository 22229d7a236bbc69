/** A peer session's accounting: the conv and datagram maps, the live counter and the guards
    that clean up after drivers (`src/kcp.rs`). */
module Session {
  import opened Base

  const SETUP_CONV_BIT: nat := 0x8000_0000
  const BRIDGE_CONV: nat := SETUP_CONV_BIT
  const MAX_CONVS_PER_SESSION: nat := 256
  const SOCKET_SEND_CAP: nat := 1024
  const APP_CHAN_CAP: nat := 256

  /** An inbound lane: the guard of the driver it feeds, the packets in flight, its room, and
      whether the driver's end is gone. */
  datatype Slot = Slot(guard: nat, queue: seq<Bytes>, cap: nat, closed: bool)

  /** Queue a copy without blocking; a full or closed lane drops it. */
  function Deliver(s: Slot, body: Bytes): Slot {
    if !s.closed && |s.queue| < s.cap then s.(queue := s.queue + [body]) else s
  }

  datatype Lane = Convs | Dgrams

  /** Held by a driver; its drop erases `key` from its map without looking whose entry it is. */
  datatype Guard = Guard(lane: Lane, key: nat)

  /** `guards` are the outstanding guards by number, `made` how many there have been, `closed`
      how many there had been at the last `close`, and `numbered` how many ids the counter
      has given out. */
  datatype State = State(convs: map<nat, Slot>, dgrams: map<nat, Slot>, live: nat, nextConv: nat,
                         guards: map<nat, Guard>, made: nat, closed: nat, numbered: nat)

  function Fresh(first: nat): State {
    State(map[], map[], 0, first, map[], 0, 0, 0)
  }

  function Of(s: State, lane: Lane): map<nat, Slot> {
    if lane == Convs then s.convs else s.dgrams
  }

  function With(s: State, lane: Lane, m: map<nat, Slot>): State {
    if lane == Convs then s.(convs := m) else s.(dgrams := m)
  }

  /** Open a lane under `key`: the entry, the count and the guard. */
  function Opened(s: State, lane: Lane, key: nat): State {
    var slot := Slot(s.made, [], if lane == Convs then SOCKET_SEND_CAP else APP_CHAN_CAP, false);
    With(s, lane, Of(s, lane)[key := slot])
      .(live := s.live + 1, guards := s.guards[s.made := Guard(lane, key)], made := s.made + 1)
  }

  /** Allocate a conv id, wrapping at 2^32, and open it. */
  function OpenedNext(s: State): State {
    Opened(s.(nextConv := (s.nextConv + 1) % U32_LIMIT, numbered := s.numbered + 1), Convs, s.nextConv)
  }

  /** A packet for a conv. An unknown conv is a peer-initiated one: it opens if the session is
      under its cap and a permit was to be had. */
  function Routed(s: State, conv: nat, body: Bytes, permit: bool): (State, bool) {
    if conv in s.convs then (s.(convs := s.convs[conv := Deliver(s.convs[conv], body)]), false)
    else if |s.convs| >= MAX_CONVS_PER_SESSION || !permit then (s, false)
    else
      var s := Opened(s, Convs, conv);
      (s.(convs := s.convs[conv := Deliver(s.convs[conv], body)]), true)
  }

  function RoutedDgram(s: State, tag: nat, body: Bytes): State {
    if tag in s.dgrams then s.(dgrams := s.dgrams[tag := Deliver(s.dgrams[tag], body)]) else s
  }

  function Dropped(s: State, g: nat): State
    requires g in s.guards && s.live > 0
  {
    var guard := s.guards[g];
    With(s, guard.lane, Of(s, guard.lane) - {guard.key})
      .(live := s.live - 1, guards := s.guards - {g})
  }

  function Closed(s: State): State {
    s.(convs := map[], dgrams := map[], closed := s.made)
  }

  predicate IsIdle(s: State) {
    s.live == 0
  }

  // ---------------------------------------------------------------- runs

  datatype Event =
    | OpenConv
    | OpenConvWith(conv: nat)
    | RegisterDgram(tag: nat)
    | Packet(conv: nat, body: Bytes, permit: bool)
    | Dgram(tag: nat, body: Bytes)
    | DriverEnds(guard: nat)
    | Hangup(lane: Lane, key: nat)
    | DriverTakes(lane: Lane, key: nat)
    | Close

  /** A driver ends once, and no id reaches 2^32. */
  predicate Enabled(s: State, e: Event) {
    match e
    case OpenConvWith(conv) => conv < U32_LIMIT
    case RegisterDgram(tag) => tag < U32_LIMIT
    case Packet(conv, _, _) => conv < U32_LIMIT
    case DriverEnds(g) => g in s.guards && s.live > 0
    case _ => true
  }

  function Next(s: State, e: Event): State
    requires Enabled(s, e)
  {
    match e
    case OpenConv => OpenedNext(s)
    case OpenConvWith(conv) => Opened(s, Convs, conv)
    case RegisterDgram(tag) => Opened(s, Dgrams, tag)
    case Packet(conv, body, permit) => Routed(s, conv, body, permit).0
    case Dgram(tag, body) => RoutedDgram(s, tag, body)
    case DriverEnds(g) => Dropped(s, g)
    case Hangup(lane, key) =>
      if key in Of(s, lane) then With(s, lane, Of(s, lane)[key := Of(s, lane)[key].(closed := true)]) else s
    case DriverTakes(lane, key) =>
      if key in Of(s, lane) && Of(s, lane)[key].queue != [] then
        With(s, lane, Of(s, lane)[key := Of(s, lane)[key].(queue := Of(s, lane)[key].queue[1..])])
      else s
    case Close => Closed(s)
  }

  ghost predicate ValidRun(s: State, es: seq<Event>)
    decreases |es|
  {
    es == [] || (Enabled(s, es[0]) && ValidRun(Next(s, es[0]), es[1..]))
  }

  function Run(s: State, es: seq<Event>): State
    requires ValidRun(s, es)
    decreases |es|
  {
    if es == [] then s else Run(Next(s, es[0]), es[1..])
  }

  // ---------------------------------------------------------------- every run

  /** The entry under `key` feeds an outstanding guard of that lane and key. */
  ghost predicate Owned(m: map<nat, Slot>, lane: Lane, guards: map<nat, Guard>) {
    forall key :: key in m ==> m[key].guard in guards && guards[m[key].guard] == Guard(lane, key)
  }

  ghost predicate Accounted(s: State) {
    && s.live == |s.guards|
    && Owned(s.convs, Convs, s.guards) && Owned(s.dgrams, Dgrams, s.guards)
    && (forall g :: g in s.guards ==> g < s.made)
    && s.closed <= s.made
  }

  lemma {:induction false} OpenAccounted(s: State, lane: Lane, key: nat)
    requires Accounted(s)
    ensures Accounted(Opened(s, lane, key))
  {
    var s' := Opened(s, lane, key);
    assert s.made !in s.guards;
    assert Owned(s'.convs, Convs, s'.guards) && Owned(s'.dgrams, Dgrams, s'.guards);
  }

  /** One entry changed in place, still feeding the same guard. */
  lemma {:induction false} TouchAccounted(s: State, lane: Lane, key: nat, slot: Slot)
    requires Accounted(s) && key in Of(s, lane) && slot.guard == Of(s, lane)[key].guard
    ensures Accounted(With(s, lane, Of(s, lane)[key := slot]))
  {
    var s' := With(s, lane, Of(s, lane)[key := slot]);
    assert Owned(s'.convs, Convs, s'.guards) && Owned(s'.dgrams, Dgrams, s'.guards);
  }

  lemma {:induction false} DropAccounted(s: State, g: nat)
    requires Accounted(s) && g in s.guards && s.live > 0
    ensures Accounted(Dropped(s, g))
  {
    var s' := Dropped(s, g);
    assert s'.guards.Keys == s.guards.Keys - {g};
    assert |s'.guards| == |s.guards| - 1;
    assert Owned(s'.convs, Convs, s'.guards) && Owned(s'.dgrams, Dgrams, s'.guards);
  }

  lemma {:induction false} NextAccounted(s: State, e: Event)
    requires Accounted(s) && Enabled(s, e)
    ensures Accounted(Next(s, e))
  {
    match e
    case OpenConv =>
      var s1 := s.(nextConv := (s.nextConv + 1) % U32_LIMIT, numbered := s.numbered + 1);
      assert Owned(s1.convs, Convs, s1.guards) && Owned(s1.dgrams, Dgrams, s1.guards);
      OpenAccounted(s1, Convs, s.nextConv);
    case OpenConvWith(conv) => OpenAccounted(s, Convs, conv);
    case RegisterDgram(tag) => OpenAccounted(s, Dgrams, tag);
    case Packet(conv, body, permit) =>
      if conv in s.convs {
        TouchAccounted(s, Convs, conv, Deliver(s.convs[conv], body));
      } else if |s.convs| < MAX_CONVS_PER_SESSION && permit {
        OpenAccounted(s, Convs, conv);
        var s1 := Opened(s, Convs, conv);
        TouchAccounted(s1, Convs, conv, Deliver(s1.convs[conv], body));
      }
    case Dgram(tag, body) =>
      if tag in s.dgrams {
        TouchAccounted(s, Dgrams, tag, Deliver(s.dgrams[tag], body));
      }
    case DriverEnds(g) => DropAccounted(s, g);
    case Hangup(lane, key) =>
      if key in Of(s, lane) {
        TouchAccounted(s, lane, key, Of(s, lane)[key].(closed := true));
      }
    case DriverTakes(lane, key) =>
      if key in Of(s, lane) && Of(s, lane)[key].queue != [] {
        TouchAccounted(s, lane, key, Of(s, lane)[key].(queue := Of(s, lane)[key].queue[1..]));
      }
    case Close =>
  }

  lemma {:induction false} RunAccounted(s: State, es: seq<Event>)
    requires Accounted(s) && ValidRun(s, es)
    ensures Accounted(Run(s, es))
    decreases |es|
  {
    if es != [] {
      NextAccounted(s, es[0]);
      RunAccounted(Next(s, es[0]), es[1..]);
    }
  }

  /** Main result: in every run, whatever keys are reused, `live` is the number of outstanding
      guards, every entry belongs to one of them, and an idle session's maps are empty. */
  lemma {:induction false} EveryRunIsAccounted(first: nat, es: seq<Event>)
    requires ValidRun(Fresh(first), es)
    ensures var s := Run(Fresh(first), es);
            && s.live == |s.guards|
            && Owned(s.convs, Convs, s.guards) && Owned(s.dgrams, Dgrams, s.guards)
            && (IsIdle(s) ==> s.convs == map[] && s.dgrams == map[])
  {
    RunAccounted(Fresh(first), es);
    var s := Run(Fresh(first), es);
    if IsIdle(s) {
      assert s.guards == map[];
    }
  }

  // ---------------------------------------------------------------- runs with fresh keys

  /** No outstanding guard holds this key in this lane. */
  ghost predicate Unheld(s: State, lane: Lane, key: nat) {
    forall g :: g in s.guards ==> s.guards[g] != Guard(lane, key)
  }

  predicate Opens(s: State, conv: nat, permit: bool) {
    conv !in s.convs && |s.convs| < MAX_CONVS_PER_SESSION && permit
  }

  /** The rule `close` states for its callers: no key is opened while an earlier driver of it
      has yet to end. */
  ghost predicate FreshKey(s: State, e: Event) {
    match e
    case OpenConv => Unheld(s, Convs, s.nextConv)
    case OpenConvWith(conv) => Unheld(s, Convs, conv)
    case RegisterDgram(tag) => Unheld(s, Dgrams, tag)
    case Packet(conv, _, permit) => Opens(s, conv, permit) ==> Unheld(s, Convs, conv)
    case _ => true
  }

  ghost predicate FreshRun(s: State, es: seq<Event>)
    requires ValidRun(s, es)
    decreases |es|
  {
    es == [] || (FreshKey(s, es[0]) && FreshRun(Next(s, es[0]), es[1..]))
  }

  /** Guard `g` is fed: the entry under its key is its own. */
  predicate Fed(s: State, g: nat)
    requires g in s.guards
  {
    var guard := s.guards[g];
    if guard.lane == Convs then guard.key in s.convs && s.convs[guard.key].guard == g
    else guard.key in s.dgrams && s.dgrams[guard.key].guard == g
  }

  /** No two outstanding guards share a key, and all opened since the last close are fed. */
  ghost predicate Reached(s: State) {
    && (forall g, h :: g in s.guards && h in s.guards && s.guards[g] == s.guards[h] ==> g == h)
    && (forall g :: g in s.guards && s.closed <= g ==> Fed(s, g))
  }

  lemma {:induction false} OpenReached(s: State, lane: Lane, key: nat)
    requires Accounted(s) && Reached(s) && Unheld(s, lane, key)
    ensures Reached(Opened(s, lane, key))
  {
    var s' := Opened(s, lane, key);
    assert s'.guards == s.guards[s.made := Guard(lane, key)];
    forall g | g in s'.guards && s'.closed <= g
      ensures Fed(s', g)
    {
      if g != s.made {
        assert Fed(s, g);
      }
    }
  }

  lemma {:induction false} TouchReached(s: State, lane: Lane, key: nat, slot: Slot)
    requires Reached(s) && key in Of(s, lane) && slot.guard == Of(s, lane)[key].guard
    ensures Reached(With(s, lane, Of(s, lane)[key := slot]))
  {
    var s' := With(s, lane, Of(s, lane)[key := slot]);
    forall g | g in s'.guards && s'.closed <= g
      ensures Fed(s', g)
    {
      assert Fed(s, g);
    }
  }

  lemma {:induction false} DropReached(s: State, g: nat)
    requires Reached(s) && g in s.guards && s.live > 0
    ensures Reached(Dropped(s, g))
  {
    var s' := Dropped(s, g);
    forall h | h in s'.guards && s'.closed <= h
      ensures Fed(s', h)
    {
      assert Fed(s, h) && s.guards[h] != s.guards[g];
    }
  }

  lemma {:induction false} NextReached(s: State, e: Event)
    requires Accounted(s) && Reached(s) && Enabled(s, e) && FreshKey(s, e)
    ensures Reached(Next(s, e))
  {
    match e
    case OpenConv =>
      var s1 := s.(nextConv := (s.nextConv + 1) % U32_LIMIT, numbered := s.numbered + 1);
      assert forall g :: g in s1.guards && s1.closed <= g ==> Fed(s, g) && Fed(s1, g);
      OpenReached(s1, Convs, s.nextConv);
    case OpenConvWith(conv) => OpenReached(s, Convs, conv);
    case RegisterDgram(tag) => OpenReached(s, Dgrams, tag);
    case Packet(conv, body, permit) =>
      if conv in s.convs {
        TouchReached(s, Convs, conv, Deliver(s.convs[conv], body));
      } else if Opens(s, conv, permit) {
        OpenReached(s, Convs, conv);
        var s1 := Opened(s, Convs, conv);
        TouchReached(s1, Convs, conv, Deliver(s1.convs[conv], body));
      }
    case Dgram(tag, body) =>
      if tag in s.dgrams {
        TouchReached(s, Dgrams, tag, Deliver(s.dgrams[tag], body));
      }
    case DriverEnds(g) => DropReached(s, g);
    case Hangup(lane, key) =>
      if key in Of(s, lane) {
        TouchReached(s, lane, key, Of(s, lane)[key].(closed := true));
      }
    case DriverTakes(lane, key) =>
      if key in Of(s, lane) && Of(s, lane)[key].queue != [] {
        TouchReached(s, lane, key, Of(s, lane)[key].(queue := Of(s, lane)[key].queue[1..]));
      }
    case Close =>
      assert forall g :: g in s.guards ==> g < s.made;
  }

  /** Main result: with fresh keys every driver opened since the last close keeps the entry
      that feeds it until it ends, in every run. */
  lemma {:induction false} FreshRunsReachTheirDrivers(s: State, es: seq<Event>)
    requires Accounted(s) && Reached(s) && ValidRun(s, es) && FreshRun(s, es)
    ensures Reached(Run(s, es))
    decreases |es|
  {
    if es != [] {
      NextAccounted(s, es[0]);
      NextReached(s, es[0]);
      FreshRunsReachTheirDrivers(Next(s, es[0]), es[1..]);
    }
  }

  /** Why keys must be fresh: a guard's drop takes another driver's entry exactly when the two
      share lane and key. */
  lemma {:induction false} DropTakesSharedKey(s: State, g: nat, h: nat)
    requires Accounted(s) && g in s.guards && h in s.guards && g != h && Fed(s, h) && s.live > 0
    ensures Fed(Dropped(s, g), h) <==> s.guards[g] != s.guards[h]
  {
  }

  /** Reopening an id after a close while its first driver lives: the first driver's end
      leaves the second outstanding and unfed. */
  lemma {:induction false} ReopenedAfterCloseIsLost(conv: nat)
    requires conv < U32_LIMIT
    ensures var es := [OpenConvWith(conv), Close, OpenConvWith(conv), DriverEnds(0)];
            ValidRun(Fresh(1), es)
            && var s := Run(Fresh(1), es);
               s.live == 1 && 1 in s.guards && !Fed(s, 1) && s.convs == map[]
  {
    var s0 := Fresh(1);
    var es := [OpenConvWith(conv), Close, OpenConvWith(conv), DriverEnds(0)];
    var s1 := Next(s0, es[0]);
    var s2 := Next(s1, es[1]);
    var s3 := Next(s2, es[2]);
    assert s3.guards == map[0 := Guard(Convs, conv), 1 := Guard(Convs, conv)];
    var s4 := Next(s3, es[3]);
    assert s4.convs == map[] && s4.live == 1;
    var e3 := es[1..][1..][1..];
    assert e3 == [DriverEnds(0)] && e3[1..] == [];
    assert ValidRun(s4, e3[1..]) && Run(s4, e3[1..]) == s4;
    assert ValidRun(s3, e3) && Run(s3, e3) == s4;
    assert ValidRun(s2, es[1..][1..]) && Run(s2, es[1..][1..]) == s4;
    assert ValidRun(s1, es[1..]) && Run(s1, es[1..]) == s4;
  }

  // ---------------------------------------------------------------- the cap and the id spaces

  /** A peer's packets never take the conv map past its cap. */
  lemma {:induction false} PeerKeepsTheCap(s: State, conv: nat, body: Bytes, permit: bool)
    ensures var s' := Routed(s, conv, body, permit).0;
            |s'.convs| <= |s.convs| || |s'.convs| <= MAX_CONVS_PER_SESSION
  {
    var s' := Routed(s, conv, body, permit).0;
    if conv in s.convs {
      assert s'.convs.Keys == s.convs.Keys;
      assert |s'.convs.Keys| == |s.convs.Keys|;
    } else if Opens(s, conv, permit) {
      assert s'.convs.Keys == s.convs.Keys + {conv};
      assert |s'.convs.Keys| == |s.convs.Keys| + 1;
    }
  }

  predicate FromPeer(e: Event) {
    !e.OpenConv? && !e.OpenConvWith?
  }

  lemma {:induction false} PeerEventKeepsTheCap(s: State, e: Event)
    requires Enabled(s, e) && FromPeer(e) && |s.convs| <= MAX_CONVS_PER_SESSION
    ensures |Next(s, e).convs| <= MAX_CONVS_PER_SESSION
  {
    match e
    case Packet(conv, body, permit) => PeerKeepsTheCap(s, conv, body, permit);
    case DriverEnds(g) =>
      assert Next(s, e).convs.Keys <= s.convs.Keys;
      SubsetSize(Next(s, e).convs.Keys, s.convs.Keys);
    case Hangup(lane, key) =>
      assert Next(s, e).convs.Keys == s.convs.Keys;
      assert |Next(s, e).convs.Keys| == |s.convs.Keys|;
    case DriverTakes(lane, key) =>
      assert Next(s, e).convs.Keys == s.convs.Keys;
      assert |Next(s, e).convs.Keys| == |s.convs.Keys|;
    case _ =>
  }

  /** Main result: a session that opens no conv itself holds at most 256, however it is fed. */
  lemma {:induction false} PeerRunsKeepTheCap(s: State, es: seq<Event>)
    requires ValidRun(s, es) && |s.convs| <= MAX_CONVS_PER_SESSION
    requires forall i :: 0 <= i < |es| ==> FromPeer(es[i])
    ensures |Run(s, es).convs| <= MAX_CONVS_PER_SESSION
    decreases |es|
  {
    if es != [] {
      PeerEventKeepsTheCap(s, es[0]);
      PeerRunsKeepTheCap(Next(s, es[0]), es[1..]);
    }
  }

  /** The setup conv derived from a control id: its low 32 bits with the top bit set. */
  function SetupConv(id: nat): (conv: nat)
    ensures SETUP_CONV_BIT <= conv < U32_LIMIT
  {
    SETUP_CONV_BIT + id % SETUP_CONV_BIT
  }

  lemma {:induction false} CountWraps(first: nat, n: nat)
    ensures ((first + n) % U32_LIMIT + 1) % U32_LIMIT == (first + n + 1) % U32_LIMIT
  {
  }

  lemma {:induction false} NextCounts(first: nat, s: State, e: Event)
    requires s.nextConv == (first + s.numbered) % U32_LIMIT && Enabled(s, e)
    ensures Next(s, e).nextConv == (first + Next(s, e).numbered) % U32_LIMIT
  {
    CountWraps(first, s.numbered);
  }

  lemma {:induction false} RunCounts(first: nat, s: State, es: seq<Event>)
    requires s.nextConv == (first + s.numbered) % U32_LIMIT && ValidRun(s, es)
    ensures Run(s, es).nextConv == (first + Run(s, es).numbered) % U32_LIMIT
    decreases |es|
  {
    if es != [] {
      NextCounts(first, s, es[0]);
      RunCounts(first, Next(s, es[0]), es[1..]);
    }
  }

  /** Whether some control id's setup conv is this one. */
  ghost predicate IsSetupConv(conv: nat) {
    exists id: nat :: conv == SetupConv(id)
  }

  /** Main result: in every run, whatever the peer sends, the counter's next id is a setup conv
      exactly when the ids given out have carried it into the upper half of the 32-bit space, and
      is the bridge's own exactly at its lower end. */
  lemma {:induction false} CounterMeetsSetupIff(first: nat, es: seq<Event>)
    requires first < U32_LIMIT && ValidRun(Fresh(first), es)
    ensures var s := Run(Fresh(first), es);
            && s.nextConv == (first + s.numbered) % U32_LIMIT
            && (IsSetupConv(s.nextConv) <==> (first + s.numbered) % U32_LIMIT >= SETUP_CONV_BIT)
            && (s.nextConv == BRIDGE_CONV <==> (first + s.numbered) % U32_LIMIT == SETUP_CONV_BIT)
  {
    RunCounts(first, Fresh(first), es);
    var next := Run(Fresh(first), es).nextConv;
    if next >= SETUP_CONV_BIT {
      assert next == SetupConv(next - SETUP_CONV_BIT);
    }
  }

  /** A session that counts from 1 is clear of setup convs for its first 2^31 - 1 ids, and the
      next id is the bridge's. */
  lemma {:induction false} CounterStaysBelowSetup(es: seq<Event>)
    requires ValidRun(Fresh(1), es)
    ensures var s := Run(Fresh(1), es);
            && (s.numbered < SETUP_CONV_BIT - 1 ==> s.nextConv == 1 + s.numbered && !IsSetupConv(s.nextConv))
            && (s.numbered == SETUP_CONV_BIT - 1 ==> s.nextConv == BRIDGE_CONV)
  {
    CounterMeetsSetupIff(1, es);
  }

  /** The conv ids an event opens that the counter did not give out. */
  function Brings(s: State, e: Event): set<nat> {
    match e
    case OpenConvWith(conv) => {conv}
    case Packet(conv, _, permit) => if Opens(s, conv, permit) then {conv} else {}
    case _ => {}
  }

  function Brought(s: State, es: seq<Event>): set<nat>
    requires ValidRun(s, es)
    decreases |es|
  {
    if es == [] then {} else Brings(s, es[0]) + Brought(Next(s, es[0]), es[1..])
  }

  /** Outstanding convs have ids the counter gave out from 1 on, or ids that were brought. */
  ghost predicate KeysFrom(s: State, brought: set<nat>) {
    && s.nextConv == (1 + s.numbered) % U32_LIMIT
    && (s.numbered < U32_LIMIT ==>
          forall g :: g in s.guards && s.guards[g].lane == Convs ==>
            s.guards[g].key in brought || 1 <= s.guards[g].key <= s.numbered)
  }

  lemma {:induction false} OpenedKeys(s: State, key: nat, brought: set<nat>)
    requires KeysFrom(s, brought) && key in brought
    ensures KeysFrom(Opened(s, Convs, key), brought)
  {
  }

  lemma {:induction false} NextKeys(s: State, e: Event, brought: set<nat>)
    requires KeysFrom(s, brought) && Enabled(s, e)
    ensures KeysFrom(Next(s, e), brought + Brings(s, e))
  {
    var all := brought + Brings(s, e);
    assert KeysFrom(s, all);
    match e
    case OpenConv =>
      CountWraps(1, s.numbered);
      var s' := OpenedNext(s);
      assert s'.guards == s.guards[s.made := Guard(Convs, s.nextConv)];
    case OpenConvWith(conv) => OpenedKeys(s, conv, all);
    case Packet(conv, _, permit) =>
      if Opens(s, conv, permit) {
        OpenedKeys(s, conv, all);
      }
    case _ =>
  }

  lemma {:induction false} RunKeys(s: State, es: seq<Event>, brought: set<nat>)
    requires KeysFrom(s, brought) && ValidRun(s, es)
    ensures KeysFrom(Run(s, es), brought + Brought(s, es))
    decreases |es|
  {
    if es == [] {
      assert brought + {} == brought;
    } else {
      NextKeys(s, es[0], brought);
      RunKeys(Next(s, es[0]), es[1..], brought + Brings(s, es[0]));
      assert brought + Brings(s, es[0]) + Brought(Next(s, es[0]), es[1..]) == brought + Brought(s, es);
    }
  }

  /** Main result: in every run short of a whole turn of the counter, its next id is one no
      outstanding conv holds, unless a peer's packet or a caller's choice brought that very id. */
  lemma {:induction false} CounterIsUnheldUnlessBrought(es: seq<Event>)
    requires ValidRun(Fresh(1), es)
    ensures var s := Run(Fresh(1), es);
            s.numbered < U32_LIMIT - 1 && s.nextConv !in Brought(Fresh(1), es) ==> Unheld(s, Convs, s.nextConv)
  {
    RunKeys(Fresh(1), es, {});
    assert {} + Brought(Fresh(1), es) == Brought(Fresh(1), es);
  }

  /** What an initiating session does: its own chosen convs, and any its peer starts, carry
      the setup bit. */
  predicate Initiator(s: State, e: Event) {
    forall conv :: conv in Brings(s, e) ==> SETUP_CONV_BIT <= conv
  }

  ghost predicate InitiatorRun(s: State, es: seq<Event>)
    requires ValidRun(s, es)
    decreases |es|
  {
    es == [] || (Initiator(s, es[0]) && InitiatorRun(Next(s, es[0]), es[1..]))
  }

  lemma {:induction false} InitiatorsBringSetup(s: State, es: seq<Event>)
    requires ValidRun(s, es) && InitiatorRun(s, es)
    ensures forall conv :: conv in Brought(s, es) ==> SETUP_CONV_BIT <= conv
    decreases |es|
  {
    if es != [] {
      InitiatorsBringSetup(Next(s, es[0]), es[1..]);
    }
  }

  /** So an initiating session's first 2^31 - 1 ids are all unheld. */
  lemma {:induction false} InitiatorsCounterIsUnheld(es: seq<Event>)
    requires ValidRun(Fresh(1), es) && InitiatorRun(Fresh(1), es)
    ensures var s := Run(Fresh(1), es);
            s.numbered < SETUP_CONV_BIT - 1 ==> Unheld(s, Convs, s.nextConv)
  {
    CounterStaysBelowSetup(es);
    InitiatorsBringSetup(Fresh(1), es);
    CounterIsUnheldUnlessBrought(es);
  }

  /** A peer that opens conv 1 itself: the counter then gives out an id that is held, and the
      first driver's end leaves the second outstanding and unfed. */
  lemma {:induction false} PeerTakesTheCountersId(body: Bytes)
    ensures var es := [Packet(1, body, true)];
            ValidRun(Fresh(1), es) && Run(Fresh(1), es).nextConv == 1 && !Unheld(Run(Fresh(1), es), Convs, 1)
    ensures var es := [Packet(1, body, true), OpenConv, DriverEnds(0)];
            ValidRun(Fresh(1), es)
            && var s := Run(Fresh(1), es);
               s.live == 1 && 1 in s.guards && !Fed(s, 1) && s.convs == map[]
  {
    var s0, p := Fresh(1), Packet(1, body, true);
    var s1 := Next(s0, p);
    assert s1.guards == map[0 := Guard(Convs, 1)] && s1.convs.Keys == {1};
    assert [p][1..] == [] && Run(s0, [p]) == s1 && s1.guards[0] == Guard(Convs, 1);
    var s2 := Next(s1, OpenConv);
    assert s2.guards == map[0 := Guard(Convs, 1), 1 := Guard(Convs, 1)];
    var s3 := Next(s2, DriverEnds(0));
    assert s3.convs == map[] && s3.guards == map[1 := Guard(Convs, 1)];
    assert [DriverEnds(0)][1..] == [] && [OpenConv, DriverEnds(0)][1..] == [DriverEnds(0)];
    assert [p, OpenConv, DriverEnds(0)][1..] == [OpenConv, DriverEnds(0)];
    assert ValidRun(s2, [DriverEnds(0)]) && Run(s2, [DriverEnds(0)]) == s3;
    assert ValidRun(s1, [OpenConv, DriverEnds(0)]) && Run(s1, [OpenConv, DriverEnds(0)]) == s3;
  }

  // ---------------------------------------------------------------- the session itself

  class PeerSession {
    var convs: map<nat, Slot>
    var dgrams: map<nat, Slot>
    var live: nat
    var nextConv: nat
    var guards: map<nat, Guard>
    var made: nat
    var closed: nat
    var numbered: nat

    function Now(): State
      reads this
    {
      State(convs, dgrams, live, nextConv, guards, made, closed, numbered)
    }

    constructor (first: nat)
      ensures Now() == Fresh(first)
    {
      convs, dgrams, live, nextConv := map[], map[], 0, first;
      guards, made, closed, numbered := map[], 0, 0, 0;
    }

    /** Insert the lane, count it, and hand its driver the guard. */
    method Spawn(lane: Lane, key: nat) returns (guard: nat)
      modifies this
      ensures guard == old(made) && Now() == Opened(old(Now()), lane, key)
    {
      guard := made;
      if lane == Convs {
        convs := convs[key := Slot(guard, [], SOCKET_SEND_CAP, false)];
      } else {
        dgrams := dgrams[key := Slot(guard, [], APP_CHAN_CAP, false)];
      }
      live := live + 1;
      guards := guards[guard := Guard(lane, key)];
      made := made + 1;
    }

    method OpenConvFresh() returns (conv: nat)
      modifies this
      ensures conv == old(nextConv) && Now() == Next(old(Now()), OpenConv)
    {
      conv := nextConv;
      nextConv, numbered := (nextConv + 1) % U32_LIMIT, numbered + 1;
      var _ := Spawn(Convs, conv);
    }

    /** True when the packet opened a peer-initiated conv. */
    method RouteKcp(conv: nat, payload: Bytes, permit: bool) returns (opens: bool)
      modifies this
      ensures (Now(), opens) == Routed(old(Now()), conv, payload, permit)
    {
      if conv in convs {
        convs := convs[conv := Deliver(convs[conv], payload)];
        return false;
      }
      if |convs| >= MAX_CONVS_PER_SESSION {
        return false;
      }
      if !permit {
        return false;
      }
      var _ := Spawn(Convs, conv);
      convs := convs[conv := Deliver(convs[conv], payload)];
      opens := true;
    }

    method RouteDgram(tag: nat, body: Bytes)
      modifies this`dgrams
      ensures Now() == RoutedDgram(old(Now()), tag, body)
    {
      if tag in dgrams {
        dgrams := dgrams[tag := Deliver(dgrams[tag], body)];
      }
    }

    /** A guard's drop: its key out of its map, and one off the count. */
    method DropGuard(guard: nat)
      requires guard in guards && live > 0
      modifies this
      ensures Now() == Dropped(old(Now()), guard)
    {
      var g := guards[guard];
      if g.lane == Convs {
        convs := convs - {g.key};
      } else {
        dgrams := dgrams - {g.key};
      }
      live := live - 1;
      guards := guards - {guard};
    }

    method CloseAll()
      modifies this`convs, this`dgrams, this`closed
      ensures Now() == Closed(old(Now()))
    {
      convs, dgrams, closed := map[], map[], made;
    }
  }
}
