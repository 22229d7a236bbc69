/** The reconnect loop step by step, and the cancel-permit protocol that mutators restart it by
    (`src/client.rs`). */
module SwitchLoop {
  import opened ActiveTarget

  /** What one pass of the loop runs, and the cancel it listens on. */
  datatype Snapshot = Snapshot(target: Target, mode: RunMode, peers: seq<SlotSpec>, cancel: nat)

  /** Where the loop stands. `TearingDown` counts the slots still to be awaited; `Ended` is a
      failed open or a panicked session, which end the client. */
  datatype Point =
    | Top
    | Parked
    | Opening
    | Resolving
    | PausedNoAddr
    | Routing
    | PausedRoutes
    | InSession
    | PausedEnd
    | Aborting
    | TearingDown(left: nat)
    | Ended

  /** `known` is whether this pass has resolved an address before; `unused` is the number of
      the next cancel. */
  datatype System = System(active: Active, point: Point, snap: Snapshot, known: bool, unused: nat)

  /** Mutators run between any two steps of the loop; whatever the world answers is an argument. */
  datatype Step =
    | Mutate(op: Op)
    | Begin
    | Open(ok: bool)
    | Resolve(found: bool)
    | Route(ok: bool)
    | SessionOver(panicked: bool)
    | Elapse
    | Consume
    | SessionGone
    | SlotGone

  predicate Pausing(p: Point) {
    p.PausedNoAddr? || p.PausedRoutes? || p.PausedEnd?
  }

  /** Where the loop waits on its cancel. */
  predicate Listening(p: Point) {
    p.Parked? || p.Resolving? || p.InSession? || Pausing(p)
  }

  /** A pass is up and no permit of its cancel has been consumed. */
  predicate Up(p: Point) {
    Listening(p) || p.Opening? || p.Routing?
  }

  /** Between a consumed permit, or boot, and the next `begin`. */
  predicate Restarting(p: Point) {
    p.Top? || p.Aborting? || p.TearingDown?
  }

  /** A body with nothing to run and nothing to pair for. */
  predicate Parks(mode: RunMode, peers: seq<SlotSpec>) {
    mode.Offline? || (mode.Idle? && peers == [])
  }

  predicate WantsExitRoutes(mode: RunMode) {
    mode.Device? && mode.device.TunDevice? && mode.device.exit
  }

  predicate Enabled(s: System, st: Step) {
    match st
    case Mutate(_) => true
    case Begin => s.point.Top? || s.point == TearingDown(0)
    case Open(_) => s.point.Opening?
    case Resolve(_) => s.point.Resolving?
    case Route(_) => s.point.Routing?
    case SessionOver(_) => s.point.InSession?
    case Elapse => Pausing(s.point)
    case Consume => Listening(s.point) && s.snap.cancel in s.active.permits
    case SessionGone => s.point.Aborting?
    case SlotGone => s.point.TearingDown? && s.point.left > 0
  }

  /** Where each listening site goes on its cancel. */
  function Cancelled(p: Point, slots: nat): Point {
    match p
    case Parked => Top
    case InSession => Aborting
    case _ => TearingDown(slots)
  }

  function Next(s: System, st: Step): System
    requires Enabled(s, st)
  {
    match st
    case Mutate(op) => s.(active := Do(s.active, op).0)
    case Begin =>
      var a := s.active.(cancel := s.unused);
      System(a, if Parks(a.mode, a.peers) then Parked else Opening,
             Snapshot(a.target, a.mode, a.peers, a.cancel), false, s.unused + 1)
    case Open(ok) => s.(point := if ok then Resolving else Ended)
    case Resolve(found) =>
      if found || s.known then s.(known := true, point := if WantsExitRoutes(s.snap.mode) then Routing else InSession)
      else s.(point := PausedNoAddr)
    case Route(ok) => s.(point := if ok then InSession else PausedRoutes)
    case SessionOver(panicked) => s.(point := if panicked then Ended else PausedEnd)
    case Elapse => s.(point := Resolving)
    case Consume =>
      s.(active := s.active.(permits := s.active.permits - {s.snap.cancel}),
         point := Cancelled(s.point, |s.snap.peers|))
    case SessionGone => s.(point := TearingDown(|s.snap.peers|))
    case SlotGone => s.(point := TearingDown(s.point.left - 1))
  }

  ghost predicate ValidRun(s: System, steps: seq<Step>)
    decreases |steps|
  {
    steps == [] || (Enabled(s, steps[0]) && ValidRun(Next(s, steps[0]), steps[1..]))
  }

  function Run(s: System, steps: seq<Step>): System
    requires ValidRun(s, steps)
    decreases |steps|
  {
    if steps == [] then s else Run(Next(s, steps[0]), steps[1..])
  }

  /** How many steps of a run are the loop's own. */
  function LoopSteps(steps: seq<Step>): nat {
    if steps == [] then 0 else (if steps[0].Mutate? then 0 else 1) + LoopSteps(steps[1..])
  }

  predicate NoBegin(steps: seq<Step>) {
    forall i :: 0 <= i < |steps| ==> !steps[i].Begin?
  }

  // ---------------------------------------------------------------- no switch is lost

  /** The loop runs what the shared state says. */
  predicate UpToDate(snap: Snapshot, a: Active) {
    snap.target == a.target && snap.mode == a.mode && snap.peers == a.peers
  }

  predicate Invariant(s: System) {
    && s.active.cancel < s.unused
    && (forall c :: c in s.active.permits ==> c < s.unused)
    && (Up(s.point) ==>
          && s.snap.cancel == s.active.cancel
          && (UpToDate(s.snap, s.active) || s.snap.cancel in s.active.permits))
    && (s.point.TearingDown? ==> s.point.left <= |s.snap.peers|)
  }

  /** Whatever changes what should run also fires the current cancel. */
  lemma {:induction false} ChangesFire(a: Active, op: Op)
    ensures var a' := Do(a, op).0;
            && a'.cancel == a.cancel
            && a.permits <= a'.permits <= a.permits + {a.cancel}
            && ((a'.target == a.target && a'.mode == a.mode && a'.peers == a.peers) || a.cancel in a'.permits)
  {
  }

  lemma {:induction false} NextKeeps(s: System, st: Step)
    requires Invariant(s) && Enabled(s, st)
    ensures Invariant(Next(s, st))
  {
    if st.Mutate? {
      ChangesFire(s.active, st.op);
    }
  }

  /** The loop before its first `begin`. */
  function Boot(a: Active): System {
    System(a, Top, Snapshot(a.target, a.mode, a.peers, a.cancel), false, 1)
  }

  lemma {:induction false} RunKeeps(s: System, steps: seq<Step>)
    requires Invariant(s) && ValidRun(s, steps)
    ensures Invariant(Run(s, steps))
    decreases |steps|
  {
    if steps != [] {
      NextKeeps(s, steps[0]);
      RunKeeps(Next(s, steps[0]), steps[1..]);
    }
  }

  /** Main result: in every interleaving from boot, while the loop runs anything but what the
      shared state says, a permit waits on the cancel it listens on. A listening loop can take
      it; a deaf one cannot lose it, and its next step listens or ends the client. */
  lemma {:induction false} NoSwitchIsLost(a: Active, steps: seq<Step>, st: Step)
    requires a.cancel == 0 && a.permits <= {0} && ValidRun(Boot(a), steps)
    ensures var s := Run(Boot(a), steps);
            Up(s.point) && !UpToDate(s.snap, s.active) ==>
              && s.snap.cancel in s.active.permits
              && (Listening(s.point) ==> Enabled(s, Consume))
              && (!Listening(s.point) && !st.Mutate? && Enabled(s, st) ==>
                    var s' := Next(s, st);
                    s'.active == s.active && s'.snap == s.snap && (Listening(s'.point) || s'.point.Ended?))
  {
    RunKeeps(Boot(a), steps);
  }

  // ---------------------------------------------------------------- from a permit to the next pass

  /** The loop steps left before the next `begin` once a permit was consumed. */
  function Cost(s: System): nat {
    match s.point
    case Aborting => 1 + |s.snap.peers|
    case TearingDown(left) => left
    case _ => 0
  }

  /** The step a restarting loop is about to take. */
  function Teardown(p: Point): Step {
    match p
    case Aborting => SessionGone
    case TearingDown(left) => if left > 0 then SlotGone else Begin
    case _ => Begin
  }

  /** Main result: after a permit is consumed at any site, through any interleaving short of the
      next `begin`, the loop only awaits the session and the slots, each once, and no branch
      leads back into the pass it left. */
  lemma {:induction false} RestartOnlyTearsDown(s: System, steps: seq<Step>)
    requires Restarting(s.point) && ValidRun(s, steps) && NoBegin(steps)
    ensures var s' := Run(s, steps);
            && Restarting(s'.point) && s'.snap == s.snap
            && Cost(s') + LoopSteps(steps) == Cost(s)
            && Enabled(s', Teardown(s'.point)) && (Teardown(s'.point).Begin? <==> Cost(s') == 0)
    ensures forall i :: 0 <= i < |steps| ==> steps[i].Mutate? || steps[i].SessionGone? || steps[i].SlotGone?
    decreases |steps|
  {
    if steps != [] {
      assert !steps[0].Begin?;
      RestartOnlyTearsDown(Next(s, steps[0]), steps[1..]);
    }
  }

  /** Every site that listens goes to teardown on its cancel. */
  lemma {:induction false} ConsumedRestarts(s: System)
    requires Enabled(s, Consume)
    ensures var s' := Next(s, Consume);
            Restarting(s'.point) && Cost(s') <= |s.snap.peers| + 1
  {
  }

  /** Main result: a restart reaches `begin` at its own loop step, neither sooner nor later, and
      that `begin` runs what the shared state says by then. */
  lemma {:induction false} RestartTakesOver(s: System, steps: seq<Step>) returns (k: nat)
    requires Restarting(s.point) && ValidRun(s, steps) && LoopSteps(steps) > Cost(s)
    ensures k < |steps| && steps[k].Begin? && NoBegin(steps[..k]) && LoopSteps(steps[..k]) == Cost(s)
    ensures ValidRun(s, steps[..k + 1])
    ensures var s' := Run(s, steps[..k + 1]); Up(s'.point) && UpToDate(s'.snap, s'.active)
    decreases |steps|
  {
    if steps[0].Begin? {
      k := 0;
      assert steps[..1][1..] == [];
    } else {
      var j := RestartTakesOver(Next(s, steps[0]), steps[1..]);
      k := j + 1;
      assert steps[..k][0] == steps[0] && steps[..k][1..] == steps[1..][..j];
      assert steps[..k + 1][0] == steps[0] && steps[..k + 1][1..] == steps[1..][..j + 1];
    }
  }

  /** A permit is waiting for the pass that is up, or was consumed already. */
  predicate Pending(s: System) {
    Restarting(s.point) || (Up(s.point) && s.snap.cancel in s.active.permits)
  }

  /** Loop steps to the next `begin`, at most, once a switch is pending. */
  function Rank(s: System): nat {
    match s.point
    case Opening => 2 + |s.snap.peers|
    case Routing => 3 + |s.snap.peers|
    case InSession => 2 + |s.snap.peers|
    case Parked => 1
    case Resolving => 1 + |s.snap.peers|
    case PausedNoAddr => 1 + |s.snap.peers|
    case PausedRoutes => 1 + |s.snap.peers|
    case PausedEnd => 1 + |s.snap.peers|
    case _ => Cost(s)
  }

  /** A loop that takes a waiting permit when it next listens. */
  ghost predicate Prompt(s: System, steps: seq<Step>)
    requires ValidRun(s, steps)
    decreases |steps|
  {
    steps != [] ==>
      && (!steps[0].Mutate? && Enabled(s, Consume) ==> steps[0].Consume?)
      && Prompt(Next(s, steps[0]), steps[1..])
  }

  lemma {:induction false} EndedStays(s: System, steps: seq<Step>)
    requires s.point.Ended? && ValidRun(s, steps)
    ensures Run(s, steps).point.Ended? && LoopSteps(steps) == 0
    decreases |steps|
  {
    if steps != [] {
      EndedStays(Next(s, steps[0]), steps[1..]);
    }
  }

  lemma {:induction false} PendingRuns(s: System, steps: seq<Step>)
    requires Invariant(s) && Pending(s) && ValidRun(s, steps) && Prompt(s, steps) && NoBegin(steps)
    ensures var s' := Run(s, steps);
            s'.point.Ended? || (Pending(s') && Rank(s') + LoopSteps(steps) <= Rank(s))
    decreases |steps|
  {
    if steps != [] {
      var s1 := Next(s, steps[0]);
      assert !steps[0].Begin?;
      NextKeeps(s, steps[0]);
      if steps[0].Mutate? {
        ChangesFire(s.active, steps[0].op);
      }
      if s1.point.Ended? {
        EndedStays(s1, steps[1..]);
      } else {
        PendingRuns(s1, steps[1..]);
      }
    }
  }

  /** Main result: from the moment a switch is pending, wherever the loop is and whatever the
      mutators do, a loop that takes a waiting permit when it next listens begins again within
      four of its steps and one per slot, unless the client ends first. */
  lemma {:induction false} PendingSwitchIsTaken(s: System, steps: seq<Step>)
    requires Invariant(s) && Pending(s) && ValidRun(s, steps) && Prompt(s, steps)
    requires LoopSteps(steps) > |s.snap.peers| + 3
    ensures (exists i :: 0 <= i < |steps| && steps[i].Begin?) || Run(s, steps).point.Ended?
  {
    if NoBegin(steps) {
      PendingRuns(s, steps);
    }
  }

  /** A loop that has not ended always has a step, so a pending switch is never stuck. */
  lemma {:induction false} LoopIsNeverStuck(s: System) returns (st: Step)
    requires Invariant(s) && !s.point.Ended? && (s.point.Parked? ==> Pending(s))
    ensures !st.Mutate? && Enabled(s, st)
  {
    match s.point
    case Top => st := Begin;
    case Parked => st := Consume;
    case Opening => st := Open(true);
    case Resolving => st := Resolve(true);
    case Routing => st := Route(true);
    case InSession => st := SessionOver(false);
    case Aborting => st := SessionGone;
    case TearingDown(left) => st := if left > 0 then SlotGone else Begin;
    case _ => st := Elapse;
  }

  // ---------------------------------------------------------------- nothing else restarts it

  function Begins(steps: seq<Step>): nat {
    if steps == [] then 0 else (if steps[0].Begin? then 1 else 0) + Begins(steps[1..])
  }

  /** How many mutators of a run were accepted. */
  function Accepted(s: System, steps: seq<Step>): nat
    requires ValidRun(s, steps)
    decreases |steps|
  {
    if steps == [] then 0
    else (if steps[0].Mutate? && Do(s.active, steps[0].op).1 then 1 else 0) + Accepted(Next(s, steps[0]), steps[1..])
  }

  lemma {:induction false} BeginsArePaidFor(s: System, steps: seq<Step>)
    requires Invariant(s) && ValidRun(s, steps)
    ensures Begins(steps) + (if Pending(Run(s, steps)) then 1 else 0)
            <= (if Pending(s) then 1 else 0) + Accepted(s, steps)
    decreases |steps|
  {
    if steps != [] {
      NextKeeps(s, steps[0]);
      if steps[0].Mutate? && !Do(s.active, steps[0].op).1 {
        RefusedDoesNotRestart(s, steps[0].op);
      }
      BeginsArePaidFor(Next(s, steps[0]), steps[1..]);
    }
  }

  /** Main result: only accepted mutations move the loop to another pass. However sessions end,
      lookups fail or routes are refused, there are no more passes after the first than
      mutations accepted. */
  lemma {:induction false} OnlyMutationsRestart(a: Active, steps: seq<Step>)
    requires a.cancel == 0 && a.permits <= {0} && ValidRun(Boot(a), steps)
    ensures Begins(steps) <= 1 + Accepted(Boot(a), steps)
  {
    BeginsArePaidFor(Boot(a), steps);
  }

  /** A permit left on a cancel that was replaced is never waited on again: the loop cannot be
      restarted by a mutation its own `begin` already took in. */
  lemma {:induction false} BeginStartsClean(s: System)
    requires Invariant(s) && Enabled(s, Begin)
    ensures var s' := Next(s, Begin); !Pending(s') && UpToDate(s'.snap, s'.active)
  {
  }

  /** A mutator that refuses leaves no permit behind. */
  lemma {:induction false} RefusedDoesNotRestart(s: System, op: Op)
    requires !Do(s.active, op).1
    ensures Next(s, Mutate(op)) == s
  {
    RefusedChangesNothing(s.active, op);
  }

  /** Accepted mutators, however many, while the loop listens: their permits are one, so one
      restart takes them all in, and that restart runs what they left. */
  lemma {:induction false} OneRestartTakesAll(s: System, ops: seq<Op>, steps: seq<Step>)
    requires Invariant(s) && Listening(s.point) && !UpToDate(s.snap, DoAll(s.active, ops))
    ensures var s1 := s.(active := DoAll(s.active, ops));
            && Enabled(s1, Consume) && s1.snap.cancel !in Next(s1, Consume).active.permits
            && (ValidRun(Next(s1, Consume), steps) && NoBegin(steps) ==>
                  var s2 := Run(Next(s1, Consume), steps);
                  Enabled(s2, Begin) ==> var s3 := Next(s2, Begin); !Pending(s3) && UpToDate(s3.snap, s3.active))
  {
    DoAllFires(s.active, ops);
    var s1 := s.(active := DoAll(s.active, ops));
    var s1' := Next(s1, Consume);
    assert Invariant(s1');
    if ValidRun(s1', steps) && NoBegin(steps) {
      RunKeeps(s1', steps);
    }
  }

  lemma {:induction false} DoAllFires(a: Active, ops: seq<Op>)
    ensures var a' := DoAll(a, ops);
            && a'.cancel == a.cancel && a.permits <= a'.permits <= a.permits + {a.cancel}
            && ((a'.target == a.target && a'.mode == a.mode && a'.peers == a.peers) || a.cancel in a'.permits)
    decreases |ops|
  {
    if ops != [] {
      ChangesFire(a, ops[0]);
      DoAllFires(Do(a, ops[0]).0, ops[1..]);
    }
  }
}
