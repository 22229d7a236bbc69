/** The peer session at the grain of its locks: a lane is inserted under its map's lock and counted
    afterwards, and anything may come between (`src/kcp.rs`). */
module SessionSteps {
  import opened Base
  import opened Session

  /** `uncounted` are the guards of lanes inserted and not yet counted; their drivers have not
      started. */
  datatype Fine = Fine(s: State, uncounted: set<nat>)

  datatype Step =
    | TakeId
    | Insert(lane: Lane, key: nat)
    | Count(guard: nat)
    | Whole(event: Event)

  /** What one lock covers: a lane that is there is fed, a started driver ends, a lane hangs
      up or is read, all lanes close. Opening is `Insert`, then `Count`, then for a peer's packet a feed. */
  predicate OneLock(f: Fine, e: Event) {
    match e
    case Dgram(_, _) => true
    case Packet(conv, _, _) => conv in f.s.convs
    case DriverEnds(g) => g !in f.uncounted
    case Hangup(_, _) => true
    case DriverTakes(_, _) => true
    case Close => true
    case _ => false
  }

  predicate StepEnabled(f: Fine, st: Step) {
    match st
    case TakeId => true
    case Insert(_, key) => key < U32_LIMIT
    case Count(g) => g in f.uncounted
    case Whole(e) => OneLock(f, e) && Enabled(f.s, e)
  }

  function Do(f: Fine, st: Step): Fine
    requires StepEnabled(f, st)
  {
    match st
    case TakeId => f.(s := f.s.(nextConv := (f.s.nextConv + 1) % U32_LIMIT, numbered := f.s.numbered + 1))
    case Insert(lane, key) => Fine(Opened(f.s, lane, key).(live := f.s.live), f.uncounted + {f.s.made})
    case Count(g) => Fine(f.s.(live := f.s.live + 1), f.uncounted - {g})
    case Whole(e) => f.(s := Next(f.s, e))
  }

  ghost predicate ValidSteps(f: Fine, sts: seq<Step>)
    decreases |sts|
  {
    sts == [] || (StepEnabled(f, sts[0]) && ValidSteps(Do(f, sts[0]), sts[1..]))
  }

  function DoAll(f: Fine, sts: seq<Step>): Fine
    requires ValidSteps(f, sts)
    decreases |sts|
  {
    if sts == [] then f else DoAll(Do(f, sts[0]), sts[1..])
  }

  /** The session as it will be once every inserted lane is counted. */
  function Settled(f: Fine): State {
    f.s.(live := f.s.live + |f.uncounted|)
  }

  ghost predicate Tracked(f: Fine) {
    Accounted(Settled(f)) && f.uncounted <= f.s.guards.Keys
  }

  /** Inserting is the whole opening of the settled session, */
  lemma {:induction false} InsertSettles(f: Fine, lane: Lane, key: nat)
    requires Tracked(f) && key < U32_LIMIT
    ensures Settled(Do(f, Insert(lane, key))) == Opened(Settled(f), lane, key)
  {
    assert f.s.made !in f.uncounted;
    assert |f.uncounted + {f.s.made}| == |f.uncounted| + 1;
  }

  /** counting changes nothing of it, */
  lemma {:induction false} CountSettles(f: Fine, g: nat)
    requires g in f.uncounted
    ensures Settled(Do(f, Count(g))) == Settled(f)
  {
    assert |f.uncounted - {g}| == |f.uncounted| - 1;
  }

  /** No step but an opening looks at the count or keeps it, so it can be raised before or after. */
  lemma {:induction false} RaisedAfter(s: State, n: nat, e: Event)
    requires Enabled(s, e) && !e.OpenConv? && !e.OpenConvWith? && !e.RegisterDgram?
    requires e.Packet? ==> e.conv in s.convs
    ensures var raised := s.(live := s.live + n);
            Enabled(raised, e) && Next(raised, e) == Next(s, e).(live := Next(s, e).live + n)
    ensures Next(s, e).guards == if e.DriverEnds? then s.guards - {e.guard} else s.guards
  {
  }

  /** and any other step is its own. */
  lemma {:induction false} WholeSettles(f: Fine, e: Event)
    requires Tracked(f) && StepEnabled(f, Whole(e))
    ensures Enabled(Settled(f), e) && Settled(Do(f, Whole(e))) == Next(Settled(f), e)
    ensures f.uncounted <= Do(f, Whole(e)).s.guards.Keys
  {
    RaisedAfter(f.s, |f.uncounted|, e);
  }

  lemma {:induction false} DoTracked(f: Fine, st: Step)
    requires Tracked(f) && StepEnabled(f, st)
    ensures Tracked(Do(f, st))
  {
    match st
    case TakeId =>
      var s1 := Settled(Do(f, st));
      assert Owned(s1.convs, Convs, s1.guards) && Owned(s1.dgrams, Dgrams, s1.guards);
    case Insert(lane, key) =>
      InsertSettles(f, lane, key);
      OpenAccounted(Settled(f), lane, key);
    case Count(g) => CountSettles(f, g);
    case Whole(e) =>
      WholeSettles(f, e);
      NextAccounted(Settled(f), e);
  }

  lemma {:induction false} RunTracked(f: Fine, sts: seq<Step>)
    requires Tracked(f) && ValidSteps(f, sts)
    ensures Tracked(DoAll(f, sts))
    decreases |sts|
  {
    if sts != [] {
      DoTracked(f, sts[0]);
      RunTracked(Do(f, sts[0]), sts[1..]);
    }
  }

  /** An entry whose lane is not counted yet. */
  predicate InTheGap(f: Fine, lane: Lane, key: nat) {
    key in Of(f.s, lane) && Of(f.s, lane)[key].guard in f.uncounted
  }

  /** Main result: in every interleaving of the locked sections, `live` is the number of
      outstanding guards less the lanes in the gap between insert and count; and a session that
      looks idle has empty maps exactly when no entry is in that gap. */
  lemma {:induction false} IdleIsEmptyIff(first: nat, sts: seq<Step>)
    requires ValidSteps(Fine(Fresh(first), {}), sts)
    ensures var f := DoAll(Fine(Fresh(first), {}), sts);
            && f.uncounted <= f.s.guards.Keys && f.s.live + |f.uncounted| == |f.s.guards|
            && Owned(f.s.convs, Convs, f.s.guards) && Owned(f.s.dgrams, Dgrams, f.s.guards)
            && (IsIdle(f.s) ==> (f.s.convs == map[] && f.s.dgrams == map[] <==>
                                 forall lane, key :: !InTheGap(f, lane, key)))
  {
    var f := DoAll(Fine(Fresh(first), {}), sts);
    RunTracked(Fine(Fresh(first), {}), sts);
    if IsIdle(f.s) {
      SameSize(f.uncounted, f.s.guards.Keys);
      assert forall key :: key in f.s.convs ==> InTheGap(f, Convs, key);
      assert forall key :: key in f.s.dgrams ==> InTheGap(f, Dgrams, key);
    }
  }

  lemma {:induction false} SameSize(a: set<nat>, b: set<nat>)
    requires a <= b && |a| == |b|
    ensures a == b
  {
    if a != b {
      var x :| x in b && x !in a;
      SubsetSize(a, b - {x});
    }
  }

  /** The gap is real: a session looks idle with a conv it has just inserted. */
  lemma {:induction false} InsertedLooksIdle(first: nat, key: nat)
    requires key < U32_LIMIT
    ensures var sts := [Insert(Convs, key)];
            && ValidSteps(Fine(Fresh(first), {}), sts)
            && var f := DoAll(Fine(Fresh(first), {}), sts);
               IsIdle(f.s) && key in f.s.convs
  {
    assert [Insert(Convs, key)][1..] == [];
    var f := Do(Fine(Fresh(first), {}), Insert(Convs, key));
    assert ValidSteps(f, []) && DoAll(f, []) == f;
  }
}
