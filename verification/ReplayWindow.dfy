/** What the replay gate means: the set of nonces accepted so far and the highest of them. */
module ReplaySpec {

  /** max is 0 while no non-zero nonce has been accepted. */
  datatype Window = Window(accepted: set<nat>, max: nat)

  const EMPTY := Window({}, 0)

  /** The lowest nonce a window topped by max still covers. */
  function WindowStart(max: nat, size: nat): nat {
    if max >= size then max - size + 1 else 0
  }

  /** Neither accepted before nor below the window; nonce 0 is never below it. */
  predicate Fresh(w: Window, size: nat, n: nat) {
    n !in w.accepted && (n == 0 || WindowStart(w.max, size) <= n)
  }

  /** The window of a size covers exactly that many nonces below and including the highest accepted one. */
  lemma FreshMeans(w: Window, size: nat, n: nat)
    requires size > 0
    ensures Fresh(w, size, n) <==> n !in w.accepted && (n == 0 || n + size > w.max)
  {
  }

  function Committed(w: Window, n: nat): Window {
    Window(w.accepted + {n}, if n > w.max then n else w.max)
  }

  ghost predicate WellFormed(w: Window) {
    && (forall n :: n in w.accepted ==> n <= w.max)
    && (w.max != 0 ==> w.max in w.accepted)
  }
}

/** Sets of naturals moved down, with what falls below zero dropped. */
module ShiftedSets {

  ghost function Shifted(s: set<nat>, d: nat): set<nat> {
    set n | n in s && n >= d :: n - d
  }

  lemma InShifted(s: set<nat>, d: nat, n: nat)
    requires d <= n
    ensures n - d in Shifted(s, d) <==> n in s
  {
  }

  lemma ShiftedAdd(s: set<nat>, d: nat, n: nat)
    requires d <= n
    ensures Shifted(s + {n}, d) == Shifted(s, d) + {n - d}
  {
    forall i ensures i in Shifted(s + {n}, d) <==> i in Shifted(s, d) + {n - d} {
      if i >= 0 {
        InShifted(s + {n}, d, i + d);
        InShifted(s, d, i + d);
      }
    }
  }

  lemma ShiftedNone(s: set<nat>, d: nat)
    requires forall n :: n in s ==> n < d
    ensures Shifted(s, d) == {}
  {
  }

  lemma ShiftedTwice(s: set<nat>, a: nat, b: nat)
    ensures Shifted(Shifted(s, a), b) == Shifted(s, a + b)
  {
    forall i: nat ensures i in Shifted(Shifted(s, a), b) <==> i in Shifted(s, a + b) {
      InShifted(Shifted(s, a), b, i + b);
      InShifted(s, a, i + b + a);
      InShifted(s, a + b, i + (a + b));
    }
  }
}

/** The word array a slide produces, and what it does to single bits. */
module BitmapSlide {
  import opened Bits
  import opened ShiftedSets

  function Word(ws: seq<bv64>, t: nat): bv64 {
    if t < |ws| then ws[t] else 0
  }

  predicate BitAt(ws: seq<bv64>, i: nat) {
    Bit(Word(ws, i / 64), i % 64)
  }

  function Join(lo: bv64, hi: bv64): bv64 { lo | hi }

  /** Word t after sliding down by dw whole words and db further bits. */
  function SlidWord(ws: seq<bv64>, dw: nat, db: nat, t: nat): bv64
    requires db < 64
  {
    if db == 0 then Word(ws, t + dw)
    else Join(Shr(Word(ws, t + dw), db), Shl(Word(ws, t + dw + 1), 64 - db))
  }

  /** The bitwise slide after its first m source words: all but the last target are complete. */
  ghost predicate SlidSoFar(ws: seq<bv64>, nw: seq<bv64>, dw: nat, db: nat, m: nat)
    requires 0 < db < 64
  {
    && |nw| == |ws| && dw + m <= |ws|
    && (forall t :: 0 <= t < m - 1 ==> nw[t] == SlidWord(ws, dw, db, t))
    && (m > 0 ==> nw[m - 1] == Shr(ws[dw + m - 1], db))
    && (forall t :: m <= t < |nw| ==> nw[t] == 0)
  }

  lemma JoinZero(v: bv64)
    ensures Join(0, v) == v && Join(v, 0) == v
  {
  }

  lemma {:induction false} ShlZero(k: nat)
    ensures Shl(0, k) == 0
  {
    if k > 0 { ShlZero(k - 1); }
  }

  /** Target words after source word v arrives for target m. */
  function Fed(nw: seq<bv64>, v: bv64, db: nat, m: nat): seq<bv64>
    requires db < 64 && m < |nw|
  {
    var low := nw[m := Join(nw[m], Shr(v, db))];
    if m == 0 then low else low[m - 1 := Join(low[m - 1], Shl(v, 64 - db))]
  }

  /** One source word: its low part starts target m, its high part completes target m - 1. */
  lemma SlideStep(ws: seq<bv64>, nw: seq<bv64>, nw': seq<bv64>, dw: nat, db: nat, m: nat)
    requires 0 < db < 64 && dw + m < |ws| && SlidSoFar(ws, nw, dw, db, m)
    requires nw' == Fed(nw, ws[dw + m], db, m)
    ensures SlidSoFar(ws, nw', dw, db, m + 1)
  {
    JoinZero(Shr(ws[dw + m], db));
  }

  /** A zero source word may be skipped. */
  lemma SlideSkip(ws: seq<bv64>, nw: seq<bv64>, dw: nat, db: nat, m: nat)
    requires 0 < db < 64 && dw + m < |ws| && SlidSoFar(ws, nw, dw, db, m)
    requires ws[dw + m] == 0
    ensures SlidSoFar(ws, nw, dw, db, m + 1)
  {
    ShrZero(db);
    ShlZero(64 - db);
    if m > 0 { JoinZero(nw[m - 1]); }
  }

  lemma SlideDone(ws: seq<bv64>, nw: seq<bv64>, shift: nat)
    requires shift % 64 != 0 && shift / 64 <= |ws|
    requires SlidSoFar(ws, nw, shift / 64, shift % 64, |ws| - shift / 64)
    ensures Slid(ws, nw, shift)
  {
    var dw, db := shift / 64, shift % 64;
    ShrZero(db);
    ShlZero(64 - db);
    JoinZero(0);
    if |ws| > dw { JoinZero(nw[|ws| - dw - 1]); }
  }

  ghost predicate Slid(ws: seq<bv64>, nw: seq<bv64>, shift: nat) {
    |nw| == |ws| && forall t :: 0 <= t < |nw| ==> nw[t] == SlidWord(ws, shift / 64, shift % 64, t)
  }

  lemma SlidWordBit(ws: seq<bv64>, dw: nat, db: nat, t: nat, j: nat)
    requires db < 64 && j < 64
    ensures Bit(SlidWord(ws, dw, db, t), j)
       <==> if j + db < 64 then Bit(Word(ws, t + dw), j + db) else Bit(Word(ws, t + dw + 1), j + db - 64)
  {
    if db != 0 {
      var lo, hi := Word(ws, t + dw), Word(ws, t + dw + 1);
      BitOr(Shr(lo, db), Shl(hi, 64 - db), j);
      BitShr(lo, db, j);
      BitShl(hi, 64 - db, j);
    }
  }

  /** The indices of the bits that are set. */
  ghost function Ones(ws: seq<bv64>): set<nat> {
    set i: nat | i < 64 * |ws| && BitAt(ws, i)
  }

  lemma SlidBit(ws: seq<bv64>, nw: seq<bv64>, shift: nat, i: nat)
    requires Slid(ws, nw, shift) && i < 64 * |nw|
    ensures BitAt(nw, i) <==> BitAt(ws, i + shift)
  {
    var dw, db, t, j := shift / 64, shift % 64, i / 64, i % 64;
    SlidWordBit(ws, dw, db, t, j);
    if j + db < 64 {
      assert (i + shift) / 64 == t + dw && (i + shift) % 64 == j + db;
    } else {
      assert (i + shift) / 64 == t + dw + 1 && (i + shift) % 64 == j + db - 64;
    }
  }

  lemma NoBitBeyond(ws: seq<bv64>, i: nat)
    requires i >= 64 * |ws|
    ensures !BitAt(ws, i)
  {
    BitZero(i % 64);
  }

  /** A slide by shift moves every set bit shift places down and brings in zeros. */
  lemma OnesAfterSlide(ws: seq<bv64>, nw: seq<bv64>, shift: nat)
    requires Slid(ws, nw, shift)
    ensures Ones(nw) == Shifted(Ones(ws), shift)
  {
    forall i: nat ensures i in Ones(nw) <==> i in Shifted(Ones(ws), shift) {
      InShifted(Ones(ws), shift, i + shift);
      if i < 64 * |nw| {
        SlidBit(ws, nw, shift, i);
        if i + shift >= 64 * |ws| { NoBitBeyond(ws, i + shift); }
      }
    }
  }

  /** w | (1 << k) */
  function WithBit(w: bv64, k: nat): bv64 { w | Shl(1, k) }

  lemma BitOfWithBit(w: bv64, k: nat, j: nat)
    requires j < 64
    ensures Bit(WithBit(w, k), j) <==> Bit(w, j) || j == k
  {
    BitOr(w, Shl(1, k), j);
    BitMask(k, j);
  }

  lemma OnesAfterSet(ws: seq<bv64>, nw: seq<bv64>, idx: nat)
    requires idx < 64 * |ws| && |nw| == |ws|
    requires nw[idx / 64] == WithBit(ws[idx / 64], idx % 64)
    requires forall t :: 0 <= t < |ws| && t != idx / 64 ==> nw[t] == ws[t]
    ensures Ones(nw) == Ones(ws) + {idx}
  {
    forall i: nat ensures i in Ones(nw) <==> i in Ones(ws) || i == idx {
      if i / 64 == idx / 64 {
        BitOfWithBit(ws[idx / 64], idx % 64, i % 64);
      } else {
        assert Word(nw, i / 64) == Word(ws, i / 64);
      }
    }
  }

  lemma OnesOfZeros(ws: seq<bv64>)
    requires forall t :: 0 <= t < |ws| ==> ws[t] == 0
    ensures Ones(ws) == {}
  {
    forall i: nat ensures i !in Ones(ws) { BitZero(i % 64); }
  }
}

/** What the bitmap holds for a window: its accepted non-zero nonces, counted from start. */
module WindowBits {
  import opened ReplaySpec
  import opened ShiftedSets

  ghost function Expected(accepted: set<nat>, start: nat): set<nat> {
    Shifted(accepted - {0}, start)
  }

  lemma ExpectedNext(accepted: set<nat>, start: nat, nonce: nat)
    requires 0 < nonce && start <= nonce
    ensures Expected(accepted + {nonce}, start) == Expected(accepted, start) + {nonce - start}
  {
    assert accepted + {nonce} - {0} == accepted - {0} + {nonce};
    ShiftedAdd(accepted - {0}, start, nonce);
  }

  lemma ExpectedZero(accepted: set<nat>, start: nat)
    ensures Expected(accepted + {0}, start) == Expected(accepted, start)
  {
    assert accepted + {0} - {0} == accepted - {0};
  }

  lemma ExpectedJump(w: Window, start: nat)
    requires WellFormed(w) && (w.max < start || w.max == 0)
    ensures Expected(w.accepted, start) == {}
  {
    ShiftedNone(w.accepted - {0}, start);
  }
}

/** The receiver's sliding bitmap over 64-bit nonces. */
module Replay {
  import opened Wrappers
  import opened Bits
  import opened BitmapSlide
  import opened ReplaySpec
  import opened ShiftedSets
  import opened WindowBits

  /** The largest size that rounds up to a number of words. */
  const MAX_SIZE: Uint64 := 0xFFFF_FFFF_FFFF_FFC0

  class ReplayWindow {
    const size: Uint64
    var max: Uint64
    var start: Uint64
    var bits: array<bv64>
    var zeroSeen: bool
    ghost var accepted: set<nat>

    ghost function View(): Window
      reads this
    {
      Window(accepted, max)
    }

    ghost predicate Valid()
      reads this, bits
    {
      && 0 < size <= MAX_SIZE
      && bits.Length == (size + 63) / 64
      && WellFormed(View())
      && (zeroSeen <==> 0 in accepted)
      && start == WindowStart(max, size)
      && Ones(bits[..]) == Expected(accepted, start)
    }

    /** A size of 0, or so large that rounding it up to words wraps, leaves no word at all. */
    constructor (size: Uint64)
      ensures fresh(bits) && View() == EMPTY && this.size == size
      ensures Valid() <==> 0 < size <= MAX_SIZE
      ensures !Valid() ==> bits.Length == 0
    {
      this.size := size;
      max, start, zeroSeen := 0, 0, false;
      accepted := {};
      bits := new bv64[(size + 63) % 0x1_0000_0000_0000_0000 / 64](_ => 0);
      new;
      OnesOfZeros(bits[..]);
    }

    function GetBit(idx: nat): bool
      requires idx / 64 < bits.Length
      reads this, bits
    {
      Meets(bits[idx / 64], Shl(1, idx % 64))
    }

    method SetBit(idx: nat)
      requires idx < 64 * bits.Length
      modifies bits
      ensures Ones(bits[..]) == old(Ones(bits[..])) + {idx}
    {
      ghost var ws := bits[..];
      bits[idx / 64] := WithBit(bits[idx / 64], idx % 64);
      OnesAfterSet(ws, bits[..], idx);
    }

    method Clear()
      modifies bits
      ensures Ones(bits[..]) == {}
    {
      var k := 0;
      while k < bits.Length
        invariant 0 <= k <= bits.Length
        invariant forall t :: 0 <= t < k ==> bits[t] == 0
      {
        bits[k] := 0;
        k := k + 1;
      }
      OnesOfZeros(bits[..]);
    }

    /** Reports whether the nonce is fresh and changes nothing. */
    method Check(nonce: Uint64) returns (ok: bool)
      requires Valid()
      ensures ok <==> Fresh(View(), size, nonce)
      ensures ok <==> nonce !in accepted && (nonce == 0 || nonce + size > max)
    {
      FreshMeans(View(), size, nonce);
      if nonce == 0 { return !zeroSeen; }
      if max == 0 { return true; }
      if nonce > max { return true; }
      if nonce < start { return false; }
      InShifted(accepted - {0}, start, nonce);
      assert nonce - start in Ones(bits[..]) <==> GetBit(nonce - start);
      return !GetBit(nonce - start);
    }

    method Commit(nonce: Uint64)
      requires Valid() && Fresh(View(), size, nonce)
      modifies this, bits
      ensures Valid() && (bits == old(bits) || fresh(bits))
      ensures View() == Committed(old(View()), nonce)
    {
      if nonce == 0 {
        zeroSeen := true;
        ExpectedZero(accepted, start);
        accepted := accepted + {0};
        return;
      }
      if max == 0 {
        ExpectedJump(View(), WindowStart(nonce, size));
        max := nonce;
        start := WindowStart(nonce, size);
        Clear();
        Record(nonce);
        return;
      }
      if nonce > max {
        Advance(nonce);
      }
      Record(nonce);
    }

    /** Sets the bit of a nonce inside the window. */
    method Record(nonce: Uint64)
      requires 0 < nonce && start <= nonce < start + 64 * bits.Length
      requires Ones(bits[..]) == Expected(accepted, start)
      modifies `accepted, bits
      ensures accepted == old(accepted) + {nonce}
      ensures Ones(bits[..]) == Expected(accepted, start)
    {
      ExpectedNext(accepted, start, nonce);
      SetBit(nonce - start);
      accepted := accepted + {nonce};
    }

    method Accept(nonce: Uint64) returns (ok: bool)
      requires Valid()
      modifies this, bits
      ensures Valid() && (bits == old(bits) || fresh(bits))
      ensures ok <==> old(Fresh(View(), size, nonce))
      ensures ok <==> nonce !in old(accepted) && (nonce == 0 || nonce + size > old(max))
      ensures View() == if ok then Committed(old(View()), nonce) else old(View())
    {
      ok := Check(nonce);
      if ok {
        Commit(nonce);
      }
    }

    /** Slides the window up so that nonce becomes its top. */
    method Advance(nonce: Uint64)
      requires Valid() && nonce > max > 0
      modifies this, bits
      ensures bits == old(bits) || fresh(bits)
      ensures bits.Length == old(bits.Length)
      ensures max == nonce && start == WindowStart(nonce, size)
      ensures zeroSeen == old(zeroSeen) && accepted == old(accepted)
      ensures Ones(bits[..]) == Expected(accepted, start)
    {
      var newStart := WindowStart(nonce, size);
      ghost var ws := bits[..];
      var shift := newStart - start;
      if shift > 0 {
        if shift >= size {
          Clear();
          ExpectedJump(View(), newStart);
        } else {
          Slide(shift);
          OnesAfterSlide(ws, bits[..], shift);
          ShiftedTwice(accepted - {0}, start, shift);
        }
      }
      start := newStart;
      max := nonce;
    }

    /** The word-wise slide into a new array. */
    method Slide(shift: nat)
      requires 0 < shift < 64 * bits.Length
      modifies this`bits
      ensures fresh(bits) && bits.Length == old(bits.Length)
      ensures Slid(old(bits[..]), bits[..], shift)
    {
      var dw, db := shift / 64, shift % 64;
      var nw := new bv64[bits.Length](_ => 0);
      if db == 0 {
        SlideWords(nw, dw);
      } else {
        SlideParts(nw, dw, db);
        SlideDone(bits[..], nw[..], shift);
      }
      bits := nw;
    }

    /** The slide by whole words. */
    method SlideWords(nw: array<bv64>, dw: nat)
      requires nw != bits && nw.Length == bits.Length && dw <= bits.Length
      requires forall t :: 0 <= t < nw.Length ==> nw[t] == 0
      modifies nw
      ensures forall t :: 0 <= t < nw.Length ==> nw[t] == Word(bits[..], t + dw)
    {
      var wi := dw;
      while wi < bits.Length
        invariant dw <= wi <= bits.Length
        invariant forall t :: 0 <= t < wi - dw ==> nw[t] == bits[t + dw]
        invariant forall t :: wi - dw <= t < nw.Length ==> nw[t] == 0
      {
        nw[wi - dw] := bits[wi];
        wi := wi + 1;
      }
    }

    /** Spreads source word v over target words m and m - 1. */
    static method Feed(nw: array<bv64>, v: bv64, db: nat, m: nat)
      requires db < 64 && m < nw.Length
      modifies nw
      ensures nw[..] == Fed(old(nw[..]), v, db, m)
    {
      nw[m] := Join(nw[m], Shr(v, db));
      if m >= 1 {
        nw[m - 1] := Join(nw[m - 1], Shl(v, 64 - db));
      }
    }

    /** One source word of the slide; an empty one is skipped. */
    method SpreadWord(nw: array<bv64>, dw: nat, db: nat, m: nat)
      requires nw != bits && 0 < db < 64 && dw + m < bits.Length == nw.Length
      requires SlidSoFar(bits[..], nw[..], dw, db, m)
      modifies nw
      ensures SlidSoFar(bits[..], nw[..], dw, db, m + 1)
    {
      var v := bits[dw + m];
      if v == 0 {
        SlideSkip(bits[..], nw[..], dw, db, m);
        return;
      }
      SlideStep(bits[..], nw[..], Fed(nw[..], v, db, m), dw, db, m);
      Feed(nw, v, db, m);
    }

    /** The slide by whole words and a part of a word. */
    method SlideParts(nw: array<bv64>, dw: nat, db: nat)
      requires nw != bits && nw.Length == bits.Length && dw <= bits.Length && 0 < db < 64
      requires SlidSoFar(bits[..], nw[..], dw, db, 0)
      modifies nw
      ensures SlidSoFar(bits[..], nw[..], dw, db, bits.Length - dw)
    {
      var wi := dw;
      while wi < bits.Length
        invariant dw <= wi <= bits.Length
        invariant SlidSoFar(bits[..], nw[..], dw, db, wi - dw)
      {
        SpreadWord(nw, dw, db, wi - dw);
        wi := wi + 1;
      }
    }
  }
}
