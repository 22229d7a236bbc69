/** The reconnect loop as the sequences of steps it may take: what may follow what within a pass,
    told from the steps alone (`src/client.rs`). */
module SwitchTrace {
  import opened Base
  import opened ActiveTarget
  import opened SwitchLoop

  /** The loop's own steps since it last began, mutators left out. */
  function PassAfter(pass: seq<Step>, steps: seq<Step>): seq<Step>
    decreases |steps|
  {
    if steps == [] then pass
    else
      match steps[0]
      case Mutate(_) => PassAfter(pass, steps[1..])
      case Begin => PassAfter([Begin], steps[1..])
      case st => PassAfter(pass + [st], steps[1..])
  }

  predicate Found(pass: seq<Step>) {
    exists i :: 0 <= i < |pass| && pass[i] == Resolve(true)
  }

  /** How many slots the pass has seen go. */
  function Gone(pass: seq<Step>): nat {
    if pass == [] then 0 else Gone(pass[..|pass| - 1]) + if pass[|pass| - 1].SlotGone? then 1 else 0
  }

  /** A tun body that asked for exit routes. */
  predicate Exits(snap: Snapshot) {
    match snap.mode
    case Device(TunDevice(_, exit, _)) => exit
    case _ => false
  }

  /** Nothing to run, or nothing to run and nobody to pair with. */
  predicate Rests(snap: Snapshot) {
    match snap.mode
    case Offline => true
    case Idle => |snap.peers| == 0
    case _ => false
  }

  /** The pass has a session up: an address was found, and an exit body's routes were just set. */
  predicate Dialled(pass: seq<Step>, snap: Snapshot) {
    && pass != []
    && match pass[|pass| - 1]
       case Resolve(_) => Found(pass) && !Exits(snap)
       case Route(ok) => ok
       case _ => false
  }

  /** What may follow once nothing of the pass is left but its slots. */
  predicate Awaits(pass: seq<Step>, snap: Snapshot, next: Step) {
    if Gone(pass) < |snap.peers| then next.SlotGone? else next.Begin?
  }

  /** What the loop may do next, from what it has done. */
  predicate Follows(pass: seq<Step>, snap: Snapshot, next: Step) {
    if pass == [] then next.Begin?
    else
      match pass[|pass| - 1]
      case Mutate(_) => false
      case Begin => if Rests(snap) then next.Consume? else next.Open?
      case Open(ok) => ok && (next.Resolve? || next.Consume?)
      case Resolve(_) =>
        if !Found(pass) then next.Elapse? || next.Consume?
        else if Exits(snap) then next.Route?
        else next.SessionOver? || next.Consume?
      case Route(ok) => next.Consume? || (if ok then next.SessionOver? else next.Elapse?)
      case SessionOver(panicked) => !panicked && (next.Elapse? || next.Consume?)
      case Elapse => next.Resolve? || next.Consume?
      case Consume =>
        if |pass| > 1 && pass[|pass| - 2].Begin? then next.Begin?
        else if Dialled(pass[..|pass| - 1], snap) then next.SessionGone?
        else Awaits(pass, snap, next)
      case SessionGone => Awaits(pass, snap, next)
      case SlotGone => Awaits(pass, snap, next)
  }

  // ---------------------------------------------------------------- the machine keeps to it

  /** Where the machine stands after such a pass. */
  predicate StandsAt(pass: seq<Step>, s: System) {
    if pass == [] then s.point.Top?
    else
      && pass[0].Begin? && (s.known <==> Found(pass))
      && (s.point.Routing? || s.point.InSession? ==> Found(pass))
      && (forall i :: 0 <= i < |pass| && pass[i].Route? ==> Exits(s.snap))
      && (Up(s.point) || s.point.Ended? || (pass[|pass| - 1].Consume? && s.point.Aborting?) ==> Gone(pass) == 0)
      && match pass[|pass| - 1]
         case Mutate(_) => false
         case Begin => |pass| == 1 && s.point == if Rests(s.snap) then Parked else Opening
         case Open(ok) => s.point == if ok then Resolving else Ended
         case Resolve(_) =>
           s.point == if !Found(pass) then PausedNoAddr else if Exits(s.snap) then Routing else InSession
         case Route(ok) => s.point == if ok then InSession else PausedRoutes
         case SessionOver(panicked) => s.point == if panicked then Ended else PausedEnd
         case Elapse => s.point == Resolving
         case Consume =>
           if |pass| > 1 && pass[|pass| - 2].Begin? then s.point.Top?
           else if Dialled(pass[..|pass| - 1], s.snap) then s.point.Aborting?
           else s.point.TearingDown? && s.point.left + Gone(pass) == |s.snap.peers|
         case SessionGone => s.point.TearingDown? && s.point.left + Gone(pass) == |s.snap.peers|
         case SlotGone => s.point.TearingDown? && s.point.left + Gone(pass) == |s.snap.peers|
  }

  lemma {:induction false} FoundNext(pass: seq<Step>, st: Step)
    ensures Found(pass + [st]) <==> Found(pass) || st == Resolve(true)
    ensures Gone(pass + [st]) == Gone(pass) + if st.SlotGone? then 1 else 0
  {
    var next := pass + [st];
    assert next[..|pass|] == pass && next[|pass|] == st;
    if Found(pass) {
      var i :| 0 <= i < |pass| && pass[i] == Resolve(true);
      assert next[i] == Resolve(true);
    }
  }

  lemma {:induction false} StepStandsAt(pass: seq<Step>, s: System, st: Step)
    requires StandsAt(pass, s) && Enabled(s, st) && !st.Mutate? && !st.Begin?
    ensures StandsAt(pass + [st], Next(s, st))
  {
    FoundNext(pass, st);
    var next := pass + [st];
    assert next[|next| - 1] == st && next[..|next| - 1] == pass
           && (pass != [] ==> next[|next| - 2] == pass[|pass| - 1]);
  }

  lemma {:induction false} BeginStandsAt(s: System)
    requires Enabled(s, Begin)
    ensures StandsAt([Begin], Next(s, Begin))
  {
    assert [Begin][..0] == [];
    assert Gone([Begin]) == 0 && !Found([Begin]);
  }

  lemma {:induction false} RunStandsAt(pass: seq<Step>, s: System, steps: seq<Step>)
    requires StandsAt(pass, s) && ValidRun(s, steps)
    ensures StandsAt(PassAfter(pass, steps), Run(s, steps))
    decreases |steps|
  {
    if steps != [] {
      match steps[0] {
        case Mutate(op) => RunStandsAt(pass, Next(s, steps[0]), steps[1..]);
        case Begin =>
          BeginStandsAt(s);
          RunStandsAt([Begin], Next(s, steps[0]), steps[1..]);
        case st =>
          StepStandsAt(pass, s, st);
          RunStandsAt(pass + [st], Next(s, steps[0]), steps[1..]);
      }
    }
  }

  /** Main result: in every interleaving from boot, the loop may take a step exactly when it
      follows from what the pass has done; to stop for a cancel there must also be a permit. */
  lemma {:induction false} StepsFollowTheirPass(a: Active, steps: seq<Step>, next: Step)
    requires ValidRun(Boot(a), steps) && !next.Mutate?
    ensures var s := Run(Boot(a), steps);
            Enabled(s, next) <==>
            Follows(PassAfter([], steps), s.snap, next) && (next.Consume? ==> s.snap.cancel in s.active.permits)
  {
    RunStandsAt([], Boot(a), steps);
  }

  /** Main result: whenever a session is up, an address was found in this very pass, and the
      loop's latest step set the routes of an exit body, or looked the server up for any other. */
  lemma {:induction false} SessionsAreRouted(a: Active, steps: seq<Step>)
    requires ValidRun(Boot(a), steps) && Run(Boot(a), steps).point.InSession?
    ensures var s := Run(Boot(a), steps);
            var pass := PassAfter([], steps);
            && Found(pass) && pass[0].Begin?
            && (if Exits(s.snap) then pass[|pass| - 1] == Route(true) else pass[|pass| - 1].Resolve?)
            && (!Exits(s.snap) ==> forall i :: 0 <= i < |pass| ==> !pass[i].Route?)
  {
    RunStandsAt([], Boot(a), steps);
  }
}
