/** The insertion sort over indices and the cycle-walking permutation the admin views share
    (`src/admin.rs`). */
module Ordering {
  import opened Base

  /** `less` is a strict weak order on the first `n` indices. */
  ghost predicate StrictWeakOrder(n: nat, less: (nat, nat) -> bool) {
    && (forall a :: 0 <= a < n ==> !less(a, a))
    && (forall a, b, c :: 0 <= a < n && 0 <= b < n && 0 <= c < n && less(a, b) && less(b, c) ==> less(a, c))
    && (forall a, b, c :: 0 <= a < n && 0 <= b < n && 0 <= c < n && less(a, c) ==> less(a, b) || less(b, c))
  }

  /** `a` belongs ahead of `b`: it is less, or it ties and came first. */
  predicate Ahead(less: (nat, nat) -> bool, a: nat, b: nat) {
    less(a, b) || (!less(b, a) && a < b)
  }

  predicate Permutation(s: seq<nat>, n: nat) {
    && |s| == n
    && (forall i :: 0 <= i < n ==> s[i] < n)
    && (forall i, j :: 0 <= i < j < n ==> s[i] != s[j])
  }

  /** Sorted, with ties in their original order. */
  predicate StableSorted(less: (nat, nat) -> bool, s: seq<nat>) {
    forall i, j :: 0 <= i < j < |s| ==> Ahead(less, s[i], s[j])
  }

  /** The first `i` positions hold the indices below `i` in stable order, the rest are
      where they started. */
  ghost predicate SortedUpTo(n: nat, less: (nat, nat) -> bool, idx: seq<nat>, i: nat) {
    && Permutation(idx, n) && i <= n
    && (forall p, q :: 0 <= p < q < i ==> Ahead(less, idx[p], idx[q]))
    && (forall p :: 0 <= p < i ==> idx[p] < i)
    && (forall p :: i <= p < n ==> idx[p] == p)
  }

  /** Index `i` on its way back, now at `j`, past everything it is less than. */
  ghost predicate Sinking(n: nat, less: (nat, nat) -> bool, s: seq<nat>, i: nat, j: nat) {
    && j <= i < n && Permutation(s, n) && s[j] == i
    && (forall p, q :: 0 <= p < q <= i && p != j && q != j ==> Ahead(less, s[p], s[q]))
    && (forall q :: j < q <= i ==> Ahead(less, i, s[q]))
    && (forall p :: 0 <= p <= i && p != j ==> s[p] < i)
    && (forall p :: i < p < n ==> s[p] == p)
  }

  lemma {:induction false} SinkStep(n: nat, less: (nat, nat) -> bool, s: seq<nat>, i: nat, j: nat)
    requires Sinking(n, less, s, i, j) && j > 0 && less(s[j], s[j - 1])
    ensures Sinking(n, less, s[j := s[j - 1]][j - 1 := s[j]], i, j - 1)
  {
    var t := s[j := s[j - 1]][j - 1 := s[j]];
    forall p, q | 0 <= p < q <= i && p != j - 1 && q != j - 1
      ensures Ahead(less, t[p], t[q])
    {
      if q == j {
        assert Ahead(less, s[p], s[j - 1]);
      } else if p == j {
        assert Ahead(less, s[j - 1], s[q]);
      }
    }
  }

  lemma {:induction false} SunkIsSorted(n: nat, less: (nat, nat) -> bool, s: seq<nat>, i: nat, j: nat)
    requires StrictWeakOrder(n, less) && Sinking(n, less, s, i, j) && (j > 0 ==> !less(s[j], s[j - 1]))
    ensures SortedUpTo(n, less, s, i + 1)
  {
    forall p | 0 <= p < j
      ensures Ahead(less, s[p], s[j])
    {
      if p < j - 1 {
        assert Ahead(less, s[p], s[j - 1]) && Ahead(less, s[j - 1], s[j]);
        AheadIsTotal(n, less, s[p], s[j - 1], s[j]);
      }
    }
  }

  /** Move index `i` back past every sorted index it is less than. */
  method Insert(n: nat, less: (nat, nat) -> bool, idx: array<nat>, i: nat)
    requires StrictWeakOrder(n, less) && i < n && SortedUpTo(n, less, idx[..], i)
    modifies idx
    ensures SortedUpTo(n, less, idx[..], i + 1)
  {
    var j := i;
    while j > 0 && less(idx[j], idx[j - 1])
      invariant 0 <= j <= i < n == idx.Length && Sinking(n, less, idx[..], i, j)
    {
      SinkStep(n, less, idx[..], i, j);
      ghost var before := idx[..];
      idx[j], idx[j - 1] := idx[j - 1], idx[j];
      assert idx[..] == before[j := before[j - 1]][j - 1 := before[j]];
      j := j - 1;
    }
    SunkIsSorted(n, less, idx[..], i, j);
  }

  /** Source indices sorted by `less`, ties kept as they came. */
  method Order(n: nat, less: (nat, nat) -> bool) returns (idx: array<nat>)
    requires StrictWeakOrder(n, less)
    ensures fresh(idx) && Permutation(idx[..], n) && StableSorted(less, idx[..])
  {
    idx := new nat[n](i => i);
    var i := 1;
    while i < n
      invariant 1 <= i && (if n == 0 then idx[..] == [] else SortedUpTo(n, less, idx[..], i))
    {
      Insert(n, less, idx, i);
      i := i + 1;
    }
  }

  lemma {:induction false} AheadIsTotal(n: nat, less: (nat, nat) -> bool, a: nat, b: nat, c: nat)
    requires StrictWeakOrder(n, less) && a < n && b < n && c < n
    ensures !(Ahead(less, a, b) && Ahead(less, b, a))
    ensures Ahead(less, a, b) && Ahead(less, b, c) ==> Ahead(less, a, c)
  {
  }

  /** Only one permutation is sorted and stable, so `Order` can answer no other. */
  lemma {:induction false} StableOrderIsUnique(n: nat, less: (nat, nat) -> bool, s: seq<nat>, t: seq<nat>)
    requires StrictWeakOrder(n, less)
    requires Permutation(s, n) && StableSorted(less, s)
    requires Permutation(t, n) && StableSorted(less, t)
    ensures s == t
  {
    if s != t {
      var k := FirstDifference(s, t);
      var i := IndexOf(t, n, s[k]);
      var j := IndexOf(s, n, t[k]);
      // Both values sit after position `k` in the other sequence, each ahead of the other.
      assert i > k && j > k;
      AheadIsTotal(n, less, s[k], t[k], s[k]);
    }
  }

  lemma {:induction false} FirstDifference(s: seq<nat>, t: seq<nat>) returns (k: nat)
    requires |s| == |t| && s != t
    ensures k < |s| && s[k] != t[k] && s[..k] == t[..k]
    decreases |s|
  {
    if s[0] != t[0] {
      k := 0;
    } else {
      assert s == [s[0]] + s[1..] && t == [t[0]] + t[1..];
      var j := FirstDifference(s[1..], t[1..]);
      k := j + 1;
      assert s[..k] == [s[0]] + s[1..][..j] && t[..k] == [t[0]] + t[1..][..j];
    }
  }

  /** A permutation takes every value: `n` distinct ones below `n` leave none out. */
  lemma {:induction false} IndexOf(s: seq<nat>, n: nat, v: nat) returns (i: nat)
    requires Permutation(s, n) && v < n
    ensures i < n && s[i] == v
  {
    if v !in s {
      var values := set k | 0 <= k < n :: s[k];
      DistinctCount(s, n);
      assert values <= Range(n) - {v};
      SubsetSize(values, Range(n) - {v});
    }
    i :| 0 <= i < |s| && s[i] == v;
  }

  lemma {:induction false} DistinctCount(s: seq<nat>, n: nat)
    requires n <= |s| && forall i, j :: 0 <= i < j < n ==> s[i] != s[j]
    ensures |set k | 0 <= k < n :: s[k]| == n
  {
    if n > 0 {
      DistinctCount(s, n - 1);
      var front := set k | 0 <= k < n - 1 :: s[k];
      assert (set k | 0 <= k < n :: s[k]) == front + {s[n - 1]};
    }
  }

  ghost function Range(n: nat): (r: set<nat>)
    ensures |r| == n && forall k: nat :: k in r <==> k < n
  {
    if n == 0 then {} else Range(n - 1) + {n - 1}
  }

  /** What `permute` leaves behind: position `i` holds what was at `order[i]`. */
  function Permuted<T>(order: seq<nat>, before: seq<T>): (after: seq<T>)
    requires Permutation(order, |before|)
    ensures |after| == |before|
  {
    seq(|before|, i requires 0 <= i < |before| => before[order[i]])
  }

  /** Where each value of a permutation sits. */
  ghost function Inverse(order: seq<nat>, n: nat): (inv: seq<nat>)
    requires Permutation(order, n)
    ensures |inv| == n && forall p :: 0 <= p < n ==> inv[p] < n && order[inv[p]] == p
    ensures forall p :: 0 <= p < n ==> inv[order[p]] == p
  {
    seq(n, p requires 0 <= p < n => Position(order, n, p))
  }

  ghost function Position(order: seq<nat>, n: nat, p: nat): (i: nat)
    requires Permutation(order, n) && p < n
    ensures i < n && order[i] == p
  {
    assert exists i: nat :: i < n && order[i] == p by {
      var i := IndexOf(order, n, p);
    }
    var i: nat :| i < n && order[i] == p;
    i
  }

  /** The only way `permute` touches what it orders. */
  method Swap<T>(a: array<T>, i: nat, j: nat)
    requires i < a.Length && j < a.Length
    modifies a
    ensures a[..] == old(a[..])[i := old(a[j])][j := old(a[i])]
  {
    a[i], a[j] := a[j], a[i];
  }

  /** The walked positions hold their final elements, the others their own, and walking
      covers whole cycles. */
  ghost predicate Walked<T>(order: seq<nat>, before: seq<T>, a: seq<T>, done: seq<bool>)
    requires Permutation(order, |before|)
  {
    && |a| == |done| == |before|
    && (forall p :: 0 <= p < |a| ==> a[p] == before[if done[p] then order[p] else p])
    && (forall p :: 0 <= p < |a| && done[p] ==> done[Inverse(order, |a|)[p]])
  }

  /** How many positions are still to be walked. */
  function Unmarked(done: seq<bool>): nat {
    if done == [] then 0 else (if done[0] then 0 else 1) + Unmarked(done[1..])
  }

  lemma {:induction false} MarkOne(done: seq<bool>, i: nat)
    requires i < |done| && !done[i]
    ensures Unmarked(done[i := true]) == Unmarked(done) - 1
  {
    if i > 0 {
      MarkOne(done[1..], i - 1);
      assert done[i := true][1..] == done[1..][i - 1 := true];
    } else {
      assert done[i := true][1..] == done[1..];
    }
  }

  /** Part way round the cycle of `start`: position `i` is next and holds start's element,
      and every walked position but `start` was reached from a walked one. */
  ghost predicate MidCycle<T>(order: seq<nat>, before: seq<T>, a: seq<T>, done: seq<bool>, start: nat, i: nat)
    requires Permutation(order, |before|)
  {
    var n := |before|;
    && |a| == |done| == n && start < n && i < n && !done[i]
    && a[i] == before[start]
    && (forall p :: 0 <= p < n && p != i ==> a[p] == before[if done[p] then order[p] else p])
    && (forall p :: 0 <= p < n && done[p] && p != start ==> done[Inverse(order, n)[p]])
    && (i != start ==> done[start] && done[Inverse(order, n)[i]])
  }

  lemma {:induction false} CycleStep<T>(order: seq<nat>, before: seq<T>, a: seq<T>, done: seq<bool>, start: nat, i: nat)
    requires Permutation(order, |before|) && MidCycle(order, before, a, done, start, i) && order[i] != start
    ensures MidCycle(order, before, a[i := a[order[i]]][order[i] := a[i]], done[i := true], start, order[i])
  {
    assert Inverse(order, |before|)[order[i]] == i;
  }

  lemma {:induction false} CycleClosed<T>(order: seq<nat>, before: seq<T>, a: seq<T>, done: seq<bool>, start: nat,
                                          i: nat)
    requires Permutation(order, |before|) && MidCycle(order, before, a, done, start, i) && order[i] == start
    ensures Walked(order, before, a, done[i := true])
  {
    assert Inverse(order, |before|)[start] == i;
  }

  /** Walk the cycle through `start`, carrying its element along. */
  method WalkCycle<T>(order: seq<nat>, a: array<T>, done: array<bool>, start: nat, ghost before: seq<T>)
    requires Permutation(order, |before|) && start < |before|
    requires Walked(order, before, a[..], done[..]) && a as object != done
    modifies a, done
    ensures Walked(order, before, a[..], done[..]) && done[start]
    ensures forall p :: 0 <= p < done.Length && old(done[p]) ==> done[p]
  {
    var i: nat := start;
    while !done[i]
      invariant i < |before| == a.Length == done.Length
      invariant forall p :: 0 <= p < done.Length && old(done[p]) ==> done[p]
      invariant if done[i] then i == start && Walked(order, before, a[..], done[..])
                else MidCycle(order, before, a[..], done[..], start, i)
      decreases Unmarked(done[..])
    {
      ghost var a0, done0 := a[..], done[..];
      MarkOne(done0, i);
      done[i] := true;
      assert done[..] == done0[i := true];
      var src := order[i];
      if src == start {
        CycleClosed(order, before, a0, done0, start, i);
        break;
      }
      CycleStep(order, before, a0, done0, start, i);
      Swap(a, i, src);
      i := src;
    }
  }

  /** Apply a permutation in place, walking each of its cycles once. */
  method Permute<T>(order: seq<nat>, a: array<T>)
    requires Permutation(order, a.Length)
    modifies a
    ensures a[..] == Permuted(order, old(a[..]))
  {
    ghost var before := a[..];
    var done := new bool[|order|](_ => false);
    for start := 0 to |order|
      invariant Walked(order, before, a[..], done[..])
      invariant forall p :: 0 <= p < start ==> done[p]
    {
      WalkCycle(order, a, done, start, before);
    }
  }
}
