/** What a peer session's lanes carry: which packets reach which driver, and in what order
    (`src/kcp.rs`). */
module SessionDelivery {
  import opened Base
  import opened Session

  // ---------------------------------------------------------------- one packet

  /** A lane that took a body: at the end of its queue, if it is open and has room. */
  predicate Took(was: Slot, now: Slot, body: Bytes) {
    now == if !was.closed && |was.queue| < was.cap then Slot(was.guard, was.queue + [body], was.cap, false) else was
  }

  /** Every lane but one is as it was. */
  predicate OthersKept(m: map<nat, Slot>, m': map<nat, Slot>, key: nat) {
    && m'.Keys - {key} == m.Keys - {key}
    && (forall k :: k in m && k in m' && k != key ==> m'[k] == m[k])
  }

  /** Main result: a packet goes to its own conv; one for no conv opens it, under the cap of 256 and
      with a permit, and is the first in its queue; any other is dropped. */
  lemma {:induction false} PacketDoes(s: State, conv: nat, body: Bytes, permit: bool)
    ensures var (s', opens) := Routed(s, conv, body, permit);
            && (opens <==> conv !in s.convs && |s.convs| < 256 && permit)
            && OthersKept(s.convs, s'.convs, conv) && s'.dgrams == s.dgrams
            && (if conv in s.convs then conv in s'.convs && Took(s.convs[conv], s'.convs[conv], body)
                else if opens then conv in s'.convs && s'.convs[conv] == Slot(s.made, [body], 1024, false)
                else s' == s)
            && (!opens ==> s' == s.(convs := s'.convs))
            && (opens ==> s' == s.(convs := s'.convs, live := s.live + 1, made := s.made + 1,
                                   guards := s.guards[s.made := Guard(Convs, conv)]))
  {
  }

  /** A datagram goes to the lane of its tag, or nowhere. */
  lemma {:induction false} DgramDoes(s: State, tag: nat, body: Bytes)
    ensures var s' := RoutedDgram(s, tag, body);
            && s' == s.(dgrams := s'.dgrams) && OthersKept(s.dgrams, s'.dgrams, tag)
            && (if tag in s.dgrams then tag in s'.dgrams && Took(s.dgrams[tag], s'.dgrams[tag], body) else s' == s)
  {
  }

  // ---------------------------------------------------------------- every run

  /** What an event sends to a lane's key. */
  function Sent(e: Event, lane: Lane, key: nat): seq<Bytes> {
    match e
    case Packet(conv, body, _) => if lane == Convs && conv == key then [body] else []
    case Dgram(tag, body) => if lane == Dgrams && tag == key then [body] else []
    case _ => []
  }

  /** What was sent to a lane's key, in order. */
  function Heard(es: seq<Event>, lane: Lane, key: nat): seq<Bytes> {
    if es == [] then []
    else Heard(es[..|es| - 1], lane, key) + Sent(es[|es| - 1], lane, key)
  }

  /** `a` is `b` with some elements left out. */
  predicate Within(a: seq<Bytes>, b: seq<Bytes>)
    decreases |b|
  {
    || a == []
    || (b != [] && ((a[|a| - 1] == b[|b| - 1] && Within(a[..|a| - 1], b[..|b| - 1])) || Within(a, b[..|b| - 1])))
  }

  lemma {:induction false} WithinMore(a: seq<Bytes>, b: seq<Bytes>, x: Bytes)
    requires Within(a, b)
    ensures Within(a, b + [x]) && Within(a + [x], b + [x])
  {
    assert (b + [x])[..|b|] == b && (a + [x])[..|a|] == a;
  }

  lemma {:induction false} WithinTail(a: seq<Bytes>, b: seq<Bytes>)
    requires a != [] && Within(a, b)
    ensures Within(a[1..], b)
    decreases |b|
  {
    var front := b[..|b| - 1];
    if Within(a, front) {
      WithinTail(a, front);
      WithinMore(a[1..], front, b[|b| - 1]);
      assert front + [b[|b| - 1]] == b;
    } else if |a| > 1 {
      WithinTail(a[..|a| - 1], front);
      assert a[1..][..|a| - 2] == a[..|a| - 1][1..];
    }
  }

  /** Each queue is within what its key was sent, and within its room. */
  ghost predicate LaneFed(m: map<nat, Slot>, lane: Lane, past: seq<Event>) {
    forall key :: key in m ==>
      && Within(m[key].queue, Heard(past, lane, key)) && |m[key].queue| <= m[key].cap
      && m[key].cap == if lane == Convs then 1024 else 256
  }

  ghost predicate Fed(s: State, past: seq<Event>) {
    LaneFed(s.convs, Convs, past) && LaneFed(s.dgrams, Dgrams, past)
  }

  lemma {:induction false} HeardNext(past: seq<Event>, e: Event, lane: Lane, key: nat, queue: seq<Bytes>)
    requires Within(queue, Heard(past, lane, key))
    ensures Within(queue, Heard(past + [e], lane, key))
    ensures Within(queue + Sent(e, lane, key), Heard(past + [e], lane, key))
  {
    assert (past + [e])[..|past|] == past;
    var heard, sent := Heard(past, lane, key), Sent(e, lane, key);
    assert Heard(past + [e], lane, key) == heard + sent;
    if sent == [] {
      assert heard + sent == heard && queue + sent == queue;
    } else {
      WithinMore(queue, heard, sent[0]);
    }
  }

  lemma {:induction false} LaneWaits(m: map<nat, Slot>, lane: Lane, past: seq<Event>, e: Event)
    requires LaneFed(m, lane, past)
    ensures LaneFed(m, lane, past + [e])
  {
    forall key | key in m
      ensures Within(m[key].queue, Heard(past + [e], lane, key))
    {
      HeardNext(past, e, lane, key, m[key].queue);
    }
  }

  /** A lane whose one changed queue is still within what was sent is fed. */
  lemma {:induction false} LaneTouched(m: map<nat, Slot>, m': map<nat, Slot>, lane: Lane, past: seq<Event>, key: nat)
    requires LaneFed(m, lane, past) && OthersKept(m, m', key)
    requires key in m' ==>
               && Within(m'[key].queue, Heard(past, lane, key)) && |m'[key].queue| <= m'[key].cap
               && m'[key].cap == if lane == Convs then 1024 else 256
    ensures LaneFed(m', lane, past)
  {
    forall k | k in m' && k != key
      ensures k in m && m'[k] == m[k]
    {
      assert k in m'.Keys - {key};
    }
  }

  lemma {:induction false} PacketFed(s: State, past: seq<Event>, e: Event)
    requires Fed(s, past) && e.Packet? && Enabled(s, e)
    ensures Fed(Next(s, e), past + [e])
  {
    var s' := Next(s, e);
    LaneWaits(s.convs, Convs, past, e);
    LaneWaits(s.dgrams, Dgrams, past, e);
    PacketDoes(s, e.conv, e.body, e.permit);
    HeardNext(past, e, Convs, e.conv, if e.conv in s.convs then s.convs[e.conv].queue else []);
    assert [] + [e.body] == [e.body];
    LaneTouched(s.convs, s'.convs, Convs, past + [e], e.conv);
  }

  lemma {:induction false} DgramFed(s: State, past: seq<Event>, e: Event)
    requires Fed(s, past) && e.Dgram? && Enabled(s, e)
    ensures Fed(Next(s, e), past + [e])
  {
    var s' := Next(s, e);
    LaneWaits(s.convs, Convs, past, e);
    LaneWaits(s.dgrams, Dgrams, past, e);
    DgramDoes(s, e.tag, e.body);
    HeardNext(past, e, Dgrams, e.tag, if e.tag in s.dgrams then s.dgrams[e.tag].queue else []);
    LaneTouched(s.dgrams, s'.dgrams, Dgrams, past + [e], e.tag);
  }

  lemma {:induction false} TakeFed(s: State, past: seq<Event>, lane: Lane, key: nat)
    requires Fed(s, past)
    ensures Fed(Next(s, DriverTakes(lane, key)), past)
  {
    if key in Of(s, lane) && Of(s, lane)[key].queue != [] {
      WithinTail(Of(s, lane)[key].queue, Heard(past, lane, key));
      LaneTouched(Of(s, lane), Of(Next(s, DriverTakes(lane, key)), lane), lane, past, key);
    }
  }

  /** Opening a lane, ending one, hanging up and closing leave every other queue alone. */
  lemma {:induction false} OtherFed(s: State, past: seq<Event>, e: Event)
    requires Fed(s, past) && Enabled(s, e) && !e.Packet? && !e.Dgram? && !e.DriverTakes?
    ensures Fed(Next(s, e), past)
  {
  }

  lemma {:induction false} NextFed(s: State, past: seq<Event>, e: Event)
    requires Fed(s, past) && Enabled(s, e)
    ensures Fed(Next(s, e), past + [e])
  {
    if e.Packet? {
      PacketFed(s, past, e);
    } else if e.Dgram? {
      DgramFed(s, past, e);
    } else {
      if e.DriverTakes? {
        TakeFed(s, past, e.lane, e.key);
      } else {
        OtherFed(s, past, e);
      }
      LaneWaits(Next(s, e).convs, Convs, past, e);
      LaneWaits(Next(s, e).dgrams, Dgrams, past, e);
    }
  }

  lemma {:induction false} RunFed(s: State, past: seq<Event>, es: seq<Event>)
    requires Fed(s, past) && ValidRun(s, es)
    ensures Fed(Run(s, es), past + es)
    decreases |es|
  {
    if es == [] {
      assert past + es == past;
    } else {
      NextFed(s, past, es[0]);
      RunFed(Next(s, es[0]), past + [es[0]], es[1..]);
      assert past + [es[0]] + es[1..] == past + es;
    }
  }

  /** Main result: in every run, what waits in a lane was sent to that lane's own key, in that
      order, and is never more than its room. */
  lemma {:induction false} LanesCarryTheirOwn(first: nat, es: seq<Event>, lane: Lane, key: nat)
    requires ValidRun(Fresh(first), es) && key in Of(Run(Fresh(first), es), lane)
    ensures var slot := Of(Run(Fresh(first), es), lane)[key];
            Within(slot.queue, Heard(es, lane, key)) && |slot.queue| <= if lane == Convs then 1024 else 256
  {
    RunFed(Fresh(first), [], es);
    assert [] + es == es;
  }
}
