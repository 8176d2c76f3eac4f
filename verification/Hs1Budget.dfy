/** How much handshake work a peer can be made to do. */
module Hs1Budget {
  import opened Wrappers
  import opened Arithmetic
  import opened PeerSpec
  import opened MeshSpec
  import Budget

  /** One critical section at a time. */
  datatype Timed = Timed(l: Local, draw: nat, now: Time)

  predicate InOrder(ts: seq<Timed>) {
    forall i, j :: 0 <= i < j < |ts| ==> ts[i].now <= ts[j].now
  }

  function PeerAt(self: Self, ep: Option<Address>, ts: seq<Timed>, n: nat): PeerState
    requires n <= |ts|
  {
    if n == 0 then Init(ep) else Act(self, PeerAt(self, ep, ts, n - 1), ts[n - 1].l, ts[n - 1].draw, ts[n - 1].now).0
  }

  predicate IsHello(self: Self, l: Local) { l.Receive? && l.wire.Hs1? && !self.initiator }

  /** An HS1 that gets past the budget check. */
  predicate Passes(self: Self, p: PeerState, e: Timed) {
    IsHello(self, e.l) && Counted(p.burst, e.now).count <= HS1_PER_SECOND
  }

  function PassedIn(self: Self, ep: Option<Address>, ts: seq<Timed>, n: nat, lo: Time, k: nat): nat
    requires n <= |ts|
  {
    if n == 0 then 0
    else PassedIn(self, ep, ts, n - 1, lo, k)
         + if Passes(self, PeerAt(self, ep, ts, n - 1), ts[n - 1]) && lo <= ts[n - 1].now < lo + k * Budget.SECOND
             then 1 else 0
  }

  /** The burst counter, which goes on counting refused messages, as a budget of 8 a second. */
  function AsBudget(b: Burst): Option<Budget.Counter> {
    Some(Budget.Counter(b.start, if b.count < HS1_PER_SECOND then b.count else HS1_PER_SECOND))
  }

  lemma CountingIsDrawing(b: Burst, now: Time)
    ensures Budget.Draw(AsBudget(b), 1, HS1_PER_SECOND, now)
         == (Counted(b, now).count <= HS1_PER_SECOND, AsBudget(Counted(b, now)))
  {
  }

  lemma OnlyHellosCount(self: Self, p: PeerState, l: Local, draw: nat, now: Time)
    ensures Act(self, p, l, draw, now).0.burst == if IsHello(self, l) then Counted(p.burst, now) else p.burst
  {
  }

  lemma StepKeepsAccount(self: Self, p: PeerState, e: Timed, passed: nat, lo: Time, k: nat, t: Time)
    requires Budget.Account(AsBudget(p.burst), HS1_PER_SECOND, passed, lo, k, t) && t <= e.now
    ensures Budget.Account(AsBudget(Act(self, p, e.l, e.draw, e.now).0.burst), HS1_PER_SECOND,
                           passed + (if Passes(self, p, e) && lo <= e.now < lo + k * Budget.SECOND then 1 else 0), lo,
                               k, e.now)
  {
    OnlyHellosCount(self, p, e.l, e.draw, e.now);
    if IsHello(self, e.l) {
      CountingIsDrawing(p.burst, e.now);
      Budget.AccountDraw(AsBudget(p.burst), 1, HS1_PER_SECOND, passed, lo, k, t, e.now);
    } else {
      Budget.AccountIdle(AsBudget(p.burst), HS1_PER_SECOND, passed, lo, k, t, e.now);
    }
  }

  /** However many HS1 messages arrive and whatever else happens in between, at most 8 * (k + 1) get past
      the budget check in any k seconds. */
  lemma {:induction false} Hs1Bound(self: Self, ep: Option<Address>, ts: seq<Timed>, n: nat, lo: Time, k: nat)
    requires InOrder(ts) && n <= |ts|
    ensures PassedIn(self, ep, ts, n, lo, k) <= (k + 1) * 8
    ensures Budget.Account(AsBudget(PeerAt(self, ep, ts, n).burst), HS1_PER_SECOND, PassedIn(self, ep, ts, n, lo, k),
                           lo, k,
                           if n == 0 then 0 else ts[n - 1].now)
  {
    if n == 0 {
      MulMonotone(0, k + 1, HS1_PER_SECOND);
    } else {
      Hs1Bound(self, ep, ts, n - 1, lo, k);
      StepKeepsAccount(self, PeerAt(self, ep, ts, n - 1), ts[n - 1], PassedIn(self, ep, ts, n - 1, lo, k), lo, k,
                       if n == 1 then 0 else ts[n - 2].now);
    }
  }

  /** The HS1 messages among the first n steps at or after a time. */
  function Hellos(self: Self, ts: seq<Timed>, n: nat, from: int): nat
    requires n <= |ts|
  {
    if n == 0 then 0
    else Hellos(self, ts, n - 1, from) + if IsHello(self, ts[n - 1].l) && ts[n - 1].now >= from then 1 else 0
  }

  lemma {:induction false} MoreHellos(self: Self, ts: seq<Timed>, n: nat, from: int, later: int)
    requires n <= |ts| && from <= later
    ensures Hellos(self, ts, n, later) <= Hellos(self, ts, n, from)
  {
    if n > 0 { MoreHellos(self, ts, n - 1, from, later); }
  }

  /** The count of the current second is no more than the messages that arrived in it. */
  lemma {:induction false} CountIsEarned(self: Self, ep: Option<Address>, ts: seq<Timed>, n: nat, b: Burst)
    requires InOrder(ts) && n <= |ts| && b == PeerAt(self, ep, ts, n).burst
    ensures b.start <= (if n == 0 then 0 else ts[n - 1].now) && b.count <= Hellos(self, ts, n, b.start)
    decreases n
  {
    if n > 0 {
      var p := PeerAt(self, ep, ts, n - 1);
      CountIsEarned(self, ep, ts, n - 1, p.burst);
      OnlyHellosCount(self, p, ts[n - 1].l, ts[n - 1].draw, ts[n - 1].now);
    }
  }

  /** Over every run an HS1 is refused for budget only if at least eight others arrived in the second before. */
  lemma RefusedIsEarned(self: Self, ep: Option<Address>, ts: seq<Timed>, n: nat)
    requires InOrder(ts) && n < |ts| && IsHello(self, ts[n].l) && !Passes(self, PeerAt(self, ep, ts, n), ts[n])
    ensures Hellos(self, ts, n, ts[n].now - 1_000_000_000 + 1) >= 8
  {
    var b := PeerAt(self, ep, ts, n).burst;
    CountIsEarned(self, ep, ts, n, b);
    MoreHellos(self, ts, n, ts[n].now - 1_000_000_000 + 1, b.start);
  }

  // Refused messages leave no trace

  /** Equal but for the burst counter, which refuses and admits alike. */
  predicate Alike(p: PeerState, q: PeerState) {
    p == q.(burst := p.burst) && AsBudget(p.burst) == AsBudget(q.burst)
  }

  predicate Refused(self: Self, p: PeerState, e: Timed) { IsHello(self, e.l) && !Passes(self, p, e) }

  lemma RefusedIsAlike(self: Self, p: PeerState, q: PeerState, e: Timed)
    requires Alike(p, q) && Refused(self, p, e)
    ensures Alike(Act(self, p, e.l, e.draw, e.now).0, q) && Act(self, p, e.l, e.draw, e.now).1 == Nothing
  {
    CountingIsDrawing(p.burst, e.now);
  }

  lemma CountedAlike(b: Burst, c: Burst, now: Time)
    requires AsBudget(b) == AsBudget(c)
    ensures AsBudget(Counted(b, now)) == AsBudget(Counted(c, now))
    ensures Counted(b, now).count <= HS1_PER_SECOND <==> Counted(c, now).count <= HS1_PER_SECOND
  {
  }

  lemma BurstUnread(self: Self, p: PeerState, c: Burst, l: Local, draw: nat, now: Time)
    requires !IsHello(self, l)
    ensures Act(self, p.(burst := c), l, draw, now)
         == (Act(self, p, l, draw, now).0.(burst := c), Act(self, p, l, draw, now).1)
  {
  }

  lemma HelloAlike(self: Self, p: PeerState, c: Burst, l: Local, draw: nat, now: Time)
    requires IsHello(self, l) && AsBudget(p.burst) == AsBudget(c)
    ensures Act(self, p.(burst := c), l, draw, now)
         == (Act(self, p, l, draw, now).0.(burst := Counted(c, now)), Act(self, p, l, draw, now).1)
  {
    CountedAlike(p.burst, c, now);
  }

  lemma AlikeStep(self: Self, p: PeerState, q: PeerState, e: Timed)
    requires Alike(p, q)
    ensures Alike(Act(self, p, e.l, e.draw, e.now).0, Act(self, q, e.l, e.draw, e.now).0)
    ensures Act(self, p, e.l, e.draw, e.now).1 == Act(self, q, e.l, e.draw, e.now).1
    ensures Refused(self, p, e) <==> Refused(self, q, e)
  {
    CountedAlike(p.burst, q.burst, e.now);
    OnlyHellosCount(self, p, e.l, e.draw, e.now);
    assert q == p.(burst := q.burst);
    if IsHello(self, e.l) {
      HelloAlike(self, p, q.burst, e.l, e.draw, e.now);
    } else {
      BurstUnread(self, p, q.burst, e.l, e.draw, e.now);
    }
  }

  /** The run without the HS1 messages that were over budget. */
  function Kept(self: Self, ep: Option<Address>, ts: seq<Timed>, n: nat): seq<Timed>
    requires n <= |ts|
  {
    if n == 0 then []
    else Kept(self, ep, ts, n - 1) + if Refused(self, PeerAt(self, ep, ts, n - 1), ts[n - 1]) then [] else [ts[n - 1]]
  }

  lemma {:induction false} PeerAtPrefix(self: Self, ep: Option<Address>, xs: seq<Timed>, ys: seq<Timed>, n: nat)
    requires n <= |xs|
    ensures PeerAt(self, ep, xs + ys, n) == PeerAt(self, ep, xs, n)
  {
    if n > 0 { PeerAtPrefix(self, ep, xs, ys, n - 1); }
  }

  /** Deleting every HS1 over budget changes nothing of the peer but the count of the current second. */
  lemma {:induction false} RefusedIsFree(self: Self, ep: Option<Address>, ts: seq<Timed>, n: nat, ks: seq<Timed>)
    requires n <= |ts| && ks == Kept(self, ep, ts, n)
    ensures Alike(PeerAt(self, ep, ts, n), PeerAt(self, ep, ks, |ks|))
    decreases n
  {
    if n > 0 {
      var e, js := ts[n - 1], Kept(self, ep, ts, n - 1);
      var p, q := PeerAt(self, ep, ts, n - 1), PeerAt(self, ep, js, |js|);
      RefusedIsFree(self, ep, ts, n - 1, js);
      if Refused(self, p, e) {
        RefusedIsAlike(self, p, q, e);
        assert ks == js;
      } else {
        AlikeStep(self, p, q, e);
        PeerAtPrefix(self, ep, js, [e], |js|);
        assert ks == js + [e];
      }
    }
  }
}

/** How long a half-open exchange can occupy the responder. */
module HalfOpenRuns {
  import opened Wrappers
  import opened Noise
  import opened HandshakeSpec
  import opened PeerSpec
  import opened MeshSpec
  import opened Hs1Budget

  /** A responder at rest has answered. */
  predicate Settled(hs: Half) {
    hs.responding.Some? ==> hs.responding.value.phase == Message2 && hs.cache.hs2.Some?
  }

  /** The exchange was opened by event e. */
  predicate OpenedBy(p: PeerState, e: Timed) {
    && e.l.Receive? && e.l.wire.Hs1? && e.l.wire.hello.Some?
    && p.hs.responding == Some(Responding(e.l.wire.hello, Some(Own(e.draw)), Message2))
    && p.hs.cache.hs1Msg == e.l.wire.hello && p.clocks.hs2SentAt == e.now
  }

  /** Any step keeps the exchange as it is, ends it, or opens a new one. */
  lemma ExchangeStep(self: Self, p: PeerState, e: Timed)
    requires !self.initiator && Settled(p.hs)
    ensures var q := Act(self, p, e.l, e.draw, e.now).0;
            && Settled(q.hs)
            && (q.hs.responding.Some? ==>
                  || OpenedBy(q, e)
                  || (q.hs.responding == p.hs.responding && q.hs.cache.hs1Msg == p.hs.cache.hs1Msg
                      && q.clocks.hs2SentAt == p.clocks.hs2SentAt))
  {
  }

  lemma {:induction false} AlwaysSettled(self: Self, ep: Option<Address>, ts: seq<Timed>, n: nat)
    requires !self.initiator && n <= |ts|
    ensures Settled(PeerAt(self, ep, ts, n).hs)
  {
    if n > 0 {
      AlwaysSettled(self, ep, ts, n - 1);
      ExchangeStep(self, PeerAt(self, ep, ts, n - 1), ts[n - 1]);
    }
  }

  /** Every half-open exchange was opened by one HS1 of the run, whose time is its age. */
  lemma {:induction false} ExchangeHasOrigin(self: Self, ep: Option<Address>, ts: seq<Timed>, n: nat) returns (i: nat)
    requires !self.initiator && n <= |ts| && PeerAt(self, ep, ts, n).hs.responding.Some?
    ensures i < n && OpenedBy(PeerAt(self, ep, ts, n), ts[i])
    decreases n
  {
    AlwaysSettled(self, ep, ts, n - 1);
    ExchangeStep(self, PeerAt(self, ep, ts, n - 1), ts[n - 1]);
    if OpenedBy(PeerAt(self, ep, ts, n), ts[n - 1]) {
      i := n - 1;
    } else {
      i := ExchangeHasOrigin(self, ep, ts, n - 1);
    }
  }

  /** After a tick the responder holds no exchange opened more than 10 s ago. */
  lemma TickFreesOld(self: Self, ep: Option<Address>, ts: seq<Timed>, n: nat)
    requires !self.initiator && n < |ts| && ts[n].l.Tick? && PeerAt(self, ep, ts, n + 1).hs.responding.Some?
    ensures exists i ::
              0 <= i <= n && OpenedBy(PeerAt(self, ep, ts, n + 1), ts[i]) && ts[n].now - ts[i].now <= 10_000_000_000
  {
    AlwaysSettled(self, ep, ts, n);
    var i := ExchangeHasOrigin(self, ep, ts, n + 1);
    assert OpenedBy(PeerAt(self, ep, ts, n + 1), ts[i]);
  }
}
