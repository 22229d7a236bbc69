/** The 128-bit sliding replay window of a stateless Noise session (`src/noise.rs`). */
module ReplayWindow {
  import opened Base

  const REPLAY_WINDOW_LEN: nat := 128

  /** Whether bit `i` of an unsigned integer is set. */
  predicate Bit(s: nat, i: nat)
    decreases i
  {
    if i == 0 then s % 2 == 1 else Bit(s / 2, i - 1)
  }

  /** `seen << advance` on a u128: the bits pushed past the top are lost. */
  function ShiftLeft(s: nat, advance: nat): (r: nat)
    ensures r < Pow2(REPLAY_WINDOW_LEN)
  {
    (s * Pow2(advance)) % Pow2(REPLAY_WINDOW_LEN)
  }

  /** `seen | (1 << i)` on a u128. */
  function SetBit(s: nat, i: nat): (r: nat) {
    if Bit(s, i) then s else s + Pow2(i)
  }

  datatype Verdict = Accepted | OutsideWindow | Replayed

  datatype Window = Window(highest: Option<nat>, seen: nat)

  const EMPTY: Window := Window(None, 0)

  /** What `check_and_mark` does to the window and answers, as a function of both. */
  function Mark(w: Window, nonce: nat): (Window, Verdict) {
    match w.highest
    case None => (Window(Some(nonce), 1), Accepted)
    case Some(highest) =>
      if nonce > highest then
        var advance := nonce - highest;
        var seen := if advance >= REPLAY_WINDOW_LEN then 1 else SetBit(ShiftLeft(w.seen, advance), 0);
        (Window(Some(nonce), seen), Accepted)
      else if highest - nonce >= REPLAY_WINDOW_LEN then
        (w, OutsideWindow)
      else if Bit(w.seen, highest - nonce) then
        (w, Replayed)
      else
        (Window(w.highest, SetBit(w.seen, highest - nonce)), Accepted)
  }

  // ---------------------------------------------------------------- bit arithmetic

  lemma {:induction false} SetBitBits(s: nat, a: nat, i: nat)
    ensures Bit(SetBit(s, a), i) <==> i == a || Bit(s, i)
    decreases a
  {
    if Bit(s, a) {
    } else if a == 0 {
      assert s % 2 == 0 && (s + 1) / 2 == s / 2;
    } else {
      assert (s + Pow2(a)) / 2 == s / 2 + Pow2(a - 1) && (s + Pow2(a)) % 2 == s % 2;
      if i > 0 {
        SetBitBits(s / 2, a - 1, i - 1);
      }
    }
  }

  lemma {:induction false} SetBitBelow(s: nat, a: nat, n: nat)
    requires s < Pow2(n) && a < n
    ensures SetBit(s, a) < Pow2(n)
    decreases a
  {
    var half := Pow2(n - 1);
    assert Pow2(n) == 2 * half && s / 2 < half;
    if a == 0 {
      assert s == 2 * (s / 2) + s % 2;
    } else if !Bit(s, a) {
      SetBitBelow(s / 2, a - 1, n - 1);
      assert s / 2 + Pow2(a - 1) < half;
    }
  }

  lemma {:induction false} ScaledBits(s: nat, a: nat, i: nat)
    ensures Bit(s * Pow2(a), i) <==> i >= a && Bit(s, i - a)
    decreases a
  {
    if a > 0 {
      var t := s * Pow2(a - 1);
      assert s * Pow2(a) == 2 * t;
      assert (2 * t) / 2 == t && (2 * t) % 2 == 0;
      if i > 0 {
        ScaledBits(s, a - 1, i - 1);
      }
    }
  }

  lemma {:induction false} HalveModulo(s: nat, m: nat)
    requires m >= 1
    ensures (s % (2 * m)) / 2 == (s / 2) % m && (s % (2 * m)) % 2 == s % 2
  {
    var q, r := s / (2 * m), s % (2 * m);
    assert s == 2 * (m * q) + r;
    assert s / 2 == m * q + r / 2;
    assert r / 2 < m;
    ModuloUnique(s / 2, m, q, r / 2);
  }

  lemma {:induction false} ModuloUnique(x: nat, m: nat, q: nat, r: nat)
    requires m >= 1 && r < m && x == m * q + r
    ensures x % m == r
  {
    var quotient := x / m;
    assert x == m * quotient + x % m;
    if q > quotient {
      Distribute(m, quotient, q - quotient);
    } else if q < quotient {
      Distribute(m, q, quotient - q);
    }
  }

  lemma {:induction false} Distribute(m: nat, a: nat, b: nat)
    ensures m * (a + b) == m * a + m * b
    ensures b >= 1 ==> m * b >= m
  {
  }

  lemma {:induction false} TruncatedBits(s: nat, n: nat, i: nat)
    requires i < n
    ensures Bit(s % Pow2(n), i) <==> Bit(s, i)
    decreases n
  {
    HalveModulo(s, Pow2(n - 1));
    if i > 0 {
      TruncatedBits(s / 2, n - 1, i - 1);
    }
  }

  /** Shifting by `advance` moves each surviving bit up and clears the ones below. */
  lemma {:induction false} ShiftLeftBits(s: nat, advance: nat, i: nat)
    requires i < REPLAY_WINDOW_LEN
    ensures Bit(ShiftLeft(s, advance), i) <==> i >= advance && Bit(s, i - advance)
  {
    TruncatedBits(s * Pow2(advance), REPLAY_WINDOW_LEN, i);
    ScaledBits(s, advance, i);
  }

  lemma {:induction false} OneBits(i: nat)
    ensures Bit(1, i) <==> i == 0
  {
    if i > 0 {
      ZeroBits(i - 1);
    }
  }

  lemma {:induction false} ZeroBits(i: nat)
    ensures !Bit(0, i)
  {
    if i > 0 {
      ZeroBits(i - 1);
    }
  }

  // ---------------------------------------------------------------- the reference

  /** The reference remembers every nonce it accepted; it takes one that is new and
      that no accepted nonce has left 128 or more behind. */
  predicate ReferenceAccepts(accepted: set<nat>, nonce: nat) {
    nonce !in accepted && forall m :: m in accepted ==> m < nonce + REPLAY_WINDOW_LEN
  }

  /** `highest` is the greatest accepted nonce, and bit `i` is set exactly when
      `highest - i` was accepted. */
  ghost predicate Represents(w: Window, accepted: set<nat>) {
    match w.highest
    case None => accepted == {} && w.seen == 0
    case Some(highest) =>
      && highest in accepted
      && (forall m :: m in accepted ==> m <= highest)
      && w.seen < Pow2(REPLAY_WINDOW_LEN)
      && forall i: nat :: i < REPLAY_WINDOW_LEN ==>
          (Bit(w.seen, i) <==> i <= highest && highest - i in accepted)
  }

  /** One step of the bitmap answers as the reference does and keeps representing it;
      a refusal is `Replayed` exactly when the nonce was accepted before and is in reach. */
  lemma {:induction false} MarkRefines(w: Window, accepted: set<nat>, nonce: nat)
    requires Represents(w, accepted)
    ensures var (w', verdict) := Mark(w, nonce);
      && (verdict == Accepted <==> ReferenceAccepts(accepted, nonce))
      && (verdict == Replayed ==> nonce in accepted)
      && (verdict == OutsideWindow <==> exists m :: m in accepted && m >= nonce + REPLAY_WINDOW_LEN)
      && Represents(w', if verdict == Accepted then accepted + {nonce} else accepted)
      && (verdict != Accepted ==> w' == w)
  {
    if w.highest.Some? {
      var highest := w.highest.value;
      if nonce > highest {
        MarkAhead(w, accepted, nonce);
      } else {
        assert highest in accepted;
        if highest - nonce < REPLAY_WINDOW_LEN && nonce !in accepted {
          MarkBehind(w, accepted, nonce);
        }
      }
    } else {
      MarkFirst(nonce);
    }
  }

  lemma {:induction false} MarkFirst(nonce: nat)
    ensures Represents(Window(Some(nonce), 1), {nonce})
  {
    forall i: nat | i < REPLAY_WINDOW_LEN
      ensures Bit(1, i) <==> i <= nonce && nonce - i in {nonce}
    {
      OneBits(i);
    }
    assert Pow2(REPLAY_WINDOW_LEN) > 1;
  }

  lemma {:induction false} MarkAhead(w: Window, accepted: set<nat>, nonce: nat)
    requires Represents(w, accepted) && w.highest.Some? && nonce > w.highest.value
    ensures Represents(Mark(w, nonce).0, accepted + {nonce})
  {
    var advance := nonce - w.highest.value;
    var w' := Mark(w, nonce).0;
    forall i: nat | i < REPLAY_WINDOW_LEN
      ensures Bit(w'.seen, i) <==> i <= nonce && nonce - i in accepted + {nonce}
    {
      OneBits(i);
      if advance < REPLAY_WINDOW_LEN {
        SetBitBits(ShiftLeft(w.seen, advance), 0, i);
        ShiftLeftBits(w.seen, advance, i);
      }
    }
    if advance < REPLAY_WINDOW_LEN {
      SetBitBelow(ShiftLeft(w.seen, advance), 0, REPLAY_WINDOW_LEN);
    }
  }

  lemma {:induction false} MarkBehind(w: Window, accepted: set<nat>, nonce: nat)
    requires Represents(w, accepted) && w.highest.Some?
    requires nonce <= w.highest.value < nonce + REPLAY_WINDOW_LEN
    requires nonce !in accepted
    ensures Represents(Mark(w, nonce).0, accepted + {nonce})
  {
    var age := w.highest.value - nonce;
    forall i: nat | i < REPLAY_WINDOW_LEN
      ensures Bit(SetBit(w.seen, age), i) <==> i <= w.highest.value && w.highest.value - i in accepted + {nonce}
    {
      SetBitBits(w.seen, age, i);
    }
    SetBitBelow(w.seen, age, REPLAY_WINDOW_LEN);
  }

  // ---------------------------------------------------------------- whole runs

  /** The verdicts the bitmap gives to a sequence of nonces, oldest first. */
  function WindowRun(w: Window, nonces: seq<nat>): seq<bool>
    decreases |nonces|
  {
    if nonces == [] then []
    else
      var (w', verdict) := Mark(w, nonces[0]);
      [verdict == Accepted] + WindowRun(w', nonces[1..])
  }

  /** The verdicts of the reference, which forgets nothing. */
  function ReferenceRun(accepted: set<nat>, nonces: seq<nat>): seq<bool>
    decreases |nonces|
  {
    if nonces == [] then []
    else
      var ok := ReferenceAccepts(accepted, nonces[0]);
      [ok] + ReferenceRun(if ok then accepted + {nonces[0]} else accepted, nonces[1..])
  }

  lemma {:induction false} RunRefines(w: Window, accepted: set<nat>, nonces: seq<nat>)
    requires Represents(w, accepted)
    ensures WindowRun(w, nonces) == ReferenceRun(accepted, nonces)
    decreases |nonces|
  {
    if nonces != [] {
      MarkRefines(w, accepted, nonces[0]);
      var (w', verdict) := Mark(w, nonces[0]);
      RunRefines(w', if verdict == Accepted then accepted + {nonces[0]} else accepted, nonces[1..]);
    }
  }

  /** For every sequence of nonces the 128-bit window accepts exactly what the
      unbounded reference accepts. */
  lemma {:induction false} WindowAcceptsWhatTheReferenceAccepts(nonces: seq<nat>)
    ensures WindowRun(EMPTY, nonces) == ReferenceRun({}, nonces)
  {
    RunRefines(EMPTY, {}, nonces);
  }

  // ---------------------------------------------------------------- the object

  /** The window a session holds; `accepted` is the reference's memory. */
  class ReplayFilter {
    var highest: Option<nat>
    var seen: nat
    ghost var accepted: set<nat>

    ghost predicate Valid()
      reads this
    {
      Represents(Window(highest, seen), accepted)
    }

    constructor ()
      ensures Valid() && accepted == {}
    {
      highest, seen, accepted := None, 0, {};
    }

    /** Accept or refuse one nonce. A refusal leaves the window as it was. */
    method CheckAndMark(nonce: nat) returns (verdict: Verdict)
      requires Valid() && nonce < U64_LIMIT
      modifies this
      ensures Valid()
      ensures verdict == Accepted <==> ReferenceAccepts(old(accepted), nonce)
      ensures (Window(highest, seen), verdict) == Mark(old(Window(highest, seen)), nonce)
      ensures accepted == if verdict == Accepted then old(accepted) + {nonce} else old(accepted)
      ensures verdict != Accepted ==> highest == old(highest) && seen == old(seen)
    {
      MarkRefines(Window(highest, seen), accepted, nonce);
      if highest.None? {
        highest, seen, accepted := Some(nonce), 1, accepted + {nonce};
        return Accepted;
      }
      var top := highest.value;
      if nonce > top {
        var advance := nonce - top;
        seen := if advance >= REPLAY_WINDOW_LEN then 1 else SetBit(ShiftLeft(seen, advance), 0);
        highest, accepted := Some(nonce), accepted + {nonce};
        return Accepted;
      }
      var age := top - nonce;
      if age >= REPLAY_WINDOW_LEN {
        return OutsideWindow;
      }
      if Bit(seen, age) {
        return Replayed;
      }
      seen, accepted := SetBit(seen, age), accepted + {nonce};
      return Accepted;
    }
  }
}
