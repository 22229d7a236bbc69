/** The live forward set and its sorted admin view (`src/client.rs`, `SharedForwards`). */
module Forwards {
  import opened Base
  import C = Config
  import opened Control
  import Ordering

  /** A forward as the snapshot reports it; zero idle seconds means no override. */
  datatype Entry = Entry(proto: Proto, port: nat, target: string, proxy: bool, idleSecs: nat, enabled: bool)

  function EntryOf(k: ForwardKey, f: Fwd): Entry {
    Entry(k.0, k.1, f.target, f.proxy, match f.idle case Some(n) => n case None => 0, f.enabled)
  }

  /** The snapshot reports a forward as an edit sets it, no override being zero seconds both ways. */
  lemma {:induction false} ReportedAsSet(proto: Proto, port: nat, target: string, proxy: bool, secs: nat, enabled: bool)
    ensures EntryOf((proto, port), Fwd(target, proxy, IdleOf(secs), enabled)) ==
            Entry(proto, port, target, proxy, secs, enabled)
  {
  }

  /** Tcp before udp, then by port. */
  predicate Before(a: Entry, b: Entry) {
    (a.proto == Tcp && b.proto == Udp) || (a.proto == b.proto && a.port < b.port)
  }

  predicate StrictlySorted(es: seq<Entry>) {
    forall i, j :: 0 <= i < j < |es| ==> Before(es[i], es[j])
  }

  /** Each forward once and nothing else. */
  ghost predicate Lists(es: seq<Entry>, m: map<ForwardKey, Fwd>) {
    && (forall i, j :: 0 <= i < j < |es| ==> es[i].proto != es[j].proto || es[i].port != es[j].port)
    && (forall i :: 0 <= i < |es| ==> var k := (es[i].proto, es[i].port); k in m && es[i] == EntryOf(k, m[k]))
    && (forall k :: k in m ==> EntryOf(k, m[k]) in es)
  }

  lemma {:induction false} EmptyTogether(a: seq<Entry>, m: map<ForwardKey, Fwd>)
    requires Lists(a, m)
    ensures a == [] <==> m == map[]
  {
    if a == [] {
      forall k
        ensures k !in m
      {
      }
    } else {
      assert (a[0].proto, a[0].port) in m;
    }
  }

  /** Only one list of a set of forwards is strictly sorted. */
  lemma {:induction false} SortedListIsUnique(a: seq<Entry>, b: seq<Entry>, m: map<ForwardKey, Fwd>)
    requires Lists(a, m) && Lists(b, m) && StrictlySorted(a) && StrictlySorted(b)
    ensures a == b
    decreases |a|
  {
    EmptyTogether(a, m);
    EmptyTogether(b, m);
    if a != [] {
      FirstIsSame(a, b, m);
      DropFirst(a, m);
      DropFirst(b, m);
      SortedListIsUnique(a[1..], b[1..], m - {(a[0].proto, a[0].port)});
      assert a == [a[0]] + a[1..] && b == [b[0]] + b[1..];
    }
  }

  lemma {:induction false} FirstIsSame(a: seq<Entry>, b: seq<Entry>, m: map<ForwardKey, Fwd>)
    requires Lists(a, m) && Lists(b, m) && StrictlySorted(a) && StrictlySorted(b) && a != [] && b != []
    ensures a[0] == b[0]
  {
    assert EntryOf((a[0].proto, a[0].port), m[(a[0].proto, a[0].port)]) in b;
    var j :| 0 <= j < |b| && b[j] == a[0];
    assert EntryOf((b[0].proto, b[0].port), m[(b[0].proto, b[0].port)]) in a;
    var i :| 0 <= i < |a| && a[i] == b[0];
    FirstIsLeast(b, j);
    FirstIsLeast(a, i);
  }

  lemma {:induction false} FirstIsLeast(a: seq<Entry>, i: nat)
    requires StrictlySorted(a) && i < |a|
    ensures i == 0 || Before(a[0], a[i])
  {
  }

  lemma {:induction false} DropFirst(a: seq<Entry>, m: map<ForwardKey, Fwd>)
    requires Lists(a, m) && StrictlySorted(a) && a != []
    ensures Lists(a[1..], m - {(a[0].proto, a[0].port)}) && StrictlySorted(a[1..])
  {
    var rest, left := a[1..], m - {(a[0].proto, a[0].port)};
    assert forall i :: 0 <= i < |rest| ==> rest[i] == a[i + 1];
    forall k | k in left
      ensures EntryOf(k, left[k]) in rest
    {
      var i :| 0 <= i < |a| && a[i] == EntryOf(k, m[k]);
      assert rest[i - 1] == a[i];
    }
  }

  function Tagged(proto: Proto, m: map<nat, Fwd>): (r: map<ForwardKey, Fwd>)
    ensures forall k :: k in r <==> k.0 == proto && k.1 in m
    ensures forall k :: k in r ==> r[k] == m[k.1]
  {
    map p | p in m :: (proto, p) := m[p]
  }

  /** The two maps as one. */
  function Both(tcp: map<nat, Fwd>, udp: map<nat, Fwd>): (r: map<ForwardKey, Fwd>)
    ensures forall k :: k in r <==> k.1 in if k.0 == Tcp then tcp else udp
    ensures forall k :: k in r ==> r[k] == (if k.0 == Tcp then tcp else udp)[k.1]
  {
    Tagged(Tcp, tcp) + Tagged(Udp, udp)
  }

  lemma {:induction false} SetTcp(tcp: map<nat, Fwd>, udp: map<nat, Fwd>, p: nat, f: Fwd)
    ensures Both(tcp[p := f], udp) == Both(tcp, udp)[(Tcp, p) := f]
  {
  }

  lemma {:induction false} SetUdp(tcp: map<nat, Fwd>, udp: map<nat, Fwd>, p: nat, f: Fwd)
    ensures Both(tcp, udp[p := f]) == Both(tcp, udp)[(Udp, p) := f]
  {
  }

  lemma {:induction false} DropTcp(tcp: map<nat, Fwd>, udp: map<nat, Fwd>, p: nat)
    ensures Both(tcp - {p}, udp) == Both(tcp, udp) - {(Tcp, p)}
  {
  }

  lemma {:induction false} DropUdp(tcp: map<nat, Fwd>, udp: map<nat, Fwd>, p: nat)
    ensures Both(tcp, udp - {p}) == Both(tcp, udp) - {(Udp, p)}
  {
  }

  lemma {:induction false} ForwardMapStep(declared: seq<C.Forward>, i: nat)
    requires i < |declared|
    ensures ForwardMap(declared[..i + 1]) == ForwardMap(declared[..i])[KeyOf(declared[i]) := FwdOf(declared[i])]
  {
    assert declared[..i + 1][..i] == declared[..i];
  }

  /** The declared forwards by protocol, a later entry of a port over an earlier one. */
  method SplitForwards(declared: seq<C.Forward>) returns (tcp: map<nat, Fwd>, udp: map<nat, Fwd>)
    ensures Both(tcp, udp) == ForwardMap(declared)
  {
    tcp, udp := map[], map[];
    for i := 0 to |declared|
      invariant Both(tcp, udp) == ForwardMap(declared[..i])
    {
      var f := declared[i];
      ForwardMapStep(declared, i);
      if f.proto == Tcp {
        SetTcp(tcp, udp, f.port, FwdOf(f));
        tcp := tcp[f.port := FwdOf(f)];
      } else {
        SetUdp(tcp, udp, f.port, FwdOf(f));
        udp := udp[f.port := FwdOf(f)];
      }
    }
    assert declared[..|declared|] == declared;
  }

  class SharedForwards {
    var tcp: map<nat, Fwd>
    var udp: map<nat, Fwd>

    /** Both maps as one, keyed by protocol and port. */
    function All(): map<ForwardKey, Fwd>
      reads this
    {
      Both(tcp, udp)
    }

    constructor (t: map<nat, Fwd>, u: map<nat, Fwd>)
      ensures All() == Both(t, u)
    {
      tcp, udp := t, u;
    }

    method AnyDeclared() returns (any: bool)
      ensures any <==> All() != map[]
    {
      any := tcp != map[] || udp != map[];
      if tcp != map[] {
        var p :| p in tcp;
        assert (Tcp, p) in All();
      } else if udp != map[] {
        var p :| p in udp;
        assert (Udp, p) in All();
      }
    }

    /** Checks for the key and inserts it under one lock. */
    method Add(proto: Proto, port: nat, f: Fwd) returns (ok: bool)
      modifies this
      ensures ok <==> (proto, port) !in old(All())
      ensures All() == if ok then old(All())[(proto, port) := f] else old(All())
    {
      if proto == Tcp {
        ok := port !in tcp;
        if ok {
          SetTcp(tcp, udp, port, f);
          tcp := tcp[port := f];
        }
      } else {
        ok := port !in udp;
        if ok {
          SetUdp(tcp, udp, port, f);
          udp := udp[port := f];
        }
      }
    }

    method Remove(proto: Proto, port: nat) returns (ok: bool)
      modifies this
      ensures ok <==> (proto, port) in old(All())
      ensures All() == if ok then old(All()) - {(proto, port)} else old(All())
    {
      if proto == Tcp {
        ok := port in tcp;
        if ok {
          DropTcp(tcp, udp, port);
          tcp := tcp - {port};
        }
      } else {
        ok := port in udp;
        if ok {
          DropUdp(tcp, udp, port);
          udp := udp - {port};
        }
      }
    }

    method SetOptions(proto: Proto, port: nat, enabled: bool, proxy: bool, idle: Option<nat>) returns (ok: bool)
      modifies this
      ensures ok <==> (proto, port) in old(All())
      ensures All() ==
              if ok then
                var was := old(All())[(proto, port)];
                old(All())[(proto, port) := was.(enabled := enabled, proxy := proxy, idle := idle)]
              else old(All())
    {
      if proto == Tcp {
        ok := port in tcp;
        if ok {
          SetTcp(tcp, udp, port, tcp[port].(enabled := enabled, proxy := proxy, idle := idle));
          tcp := tcp[port := tcp[port].(enabled := enabled, proxy := proxy, idle := idle)];
        }
      } else {
        ok := port in udp;
        if ok {
          SetUdp(tcp, udp, port, udp[port].(enabled := enabled, proxy := proxy, idle := idle));
          udp := udp[port := udp[port].(enabled := enabled, proxy := proxy, idle := idle)];
        }
      }
    }

    /** Every forward, in whatever order the maps give them, then sorted in place. */
    method Entries() returns (out: seq<Entry>)
      ensures Lists(out, All()) && StrictlySorted(out)
    {
      var listed := ListAll(All());
      out := SortEntries(listed, All());
    }
  }

  /** One entry per key, the keys in any order. */
  method ListAll(m: map<ForwardKey, Fwd>) returns (es: seq<Entry>)
    ensures Lists(es, m)
  {
    es := [];
    var left := m.Keys;
    while left != {}
      invariant left <= m.Keys
      invariant forall i, j :: 0 <= i < j < |es| ==> es[i].proto != es[j].proto || es[i].port != es[j].port
      invariant forall i :: 0 <= i < |es| ==>
                  var k := (es[i].proto, es[i].port); k in m && k !in left && es[i] == EntryOf(k, m[k])
      invariant forall k :: k in m && k !in left ==> EntryOf(k, m[k]) in es
      decreases |left|
    {
      var k :| k in left;
      left := left - {k};
      es := es + [EntryOf(k, m[k])];
    }
  }

  lemma {:induction false} OrderOfEntries(es: seq<Entry>)
    ensures Ordering.StrictWeakOrder(|es|, (a: nat, b: nat) => a < |es| && b < |es| && Before(es[a], es[b]))
  {
  }

  method SortEntries(es: seq<Entry>, ghost m: map<ForwardKey, Fwd>) returns (out: seq<Entry>)
    requires Lists(es, m)
    ensures Lists(out, m) && StrictlySorted(out)
  {
    var less := (a: nat, b: nat) => a < |es| && b < |es| && Before(es[a], es[b]);
    OrderOfEntries(es);
    var idx := Ordering.Order(|es|, less);
    var a := new Entry[|es|](i requires 0 <= i < |es| => es[i]);
    assert a[..] == es;
    Ordering.Permute(idx[..], a);
    out := a[..];
    PermutedLists(es, idx[..], m);
    PermutedSorted(es, idx[..], m, less);
  }

  lemma {:induction false} PermutedLists(es: seq<Entry>, order: seq<nat>, m: map<ForwardKey, Fwd>)
    requires Lists(es, m) && Ordering.Permutation(order, |es|)
    ensures Lists(Ordering.Permuted(order, es), m)
  {
    var out := Ordering.Permuted(order, es);
    forall i, j | 0 <= i < j < |out|
      ensures out[i].proto != out[j].proto || out[i].port != out[j].port
    {
      assert order[i] != order[j];
      assert out[i] == es[order[i]] && out[j] == es[order[j]];
      if order[i] > order[j] {
        assert es[order[j]].proto != es[order[i]].proto || es[order[j]].port != es[order[i]].port;
      }
    }
    forall k | k in m
      ensures EntryOf(k, m[k]) in out
    {
      var v :| 0 <= v < |es| && es[v] == EntryOf(k, m[k]);
      var i := Ordering.IndexOf(order, |es|, v);
      assert out[i] == es[v];
    }
  }

  lemma {:induction false} PermutedSorted(es: seq<Entry>, order: seq<nat>, m: map<ForwardKey, Fwd>,
                                          less: (nat, nat) -> bool)
    requires Lists(es, m) && Ordering.Permutation(order, |es|) && Ordering.StableSorted(less, order)
    requires forall a: nat, b: nat :: less(a, b) <==> a < |es| && b < |es| && Before(es[a], es[b])
    ensures StrictlySorted(Ordering.Permuted(order, es))
  {
    var out := Ordering.Permuted(order, es);
    forall i, j | 0 <= i < j < |out|
      ensures Before(out[i], out[j])
    {
      assert Ordering.Ahead(less, order[i], order[j]);
      assert out[i] == es[order[i]] && out[j] == es[order[j]] && order[i] != order[j];
      if order[i] > order[j] {
        assert es[order[j]].proto != es[order[i]].proto || es[order[j]].port != es[order[i]].port;
      } else {
        assert es[order[i]].proto != es[order[j]].proto || es[order[i]].port != es[order[j]].port;
      }
    }
  }
}
