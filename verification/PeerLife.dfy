/** What leaves a peer: which frame, by which path and to which address. */
module PeerEmits {
  import opened Wrappers
  import opened Noise
  import opened HandshakeSpec
  import opened WireBudget
  import opened PeerSpec
  import opened MeshSpec

  /** The frame takes the relay if that is its path, else the endpoint, and stays behind only without one. */
  predicate Leaves(sent: Sent, path: Path, ep: Option<Address>, w: Wire) {
    && (sent == ToRelay(w) <==> path == Relay)
    && (path != Relay && ep.Some? ==> sent == ToAddress(ep.value, w))
    && (path != Relay && ep.None? ==> sent == Nothing)
  }

  /** An initiator's attempt is an HS1 once half a second has passed since the last, the same one each time;
      everything else is a probe. */
  lemma PunchEmits(self: Self, p: PeerState, mode: Path, draw: nat, now: Time)
    ensures var (q, sent) := Act(self, p, Try(mode), draw, now);
            var due := self.initiator && now - p.clocks.lastHS1 >= 500_000_000;
            var h := if p.hs.cache.hs1.Some? then p.hs.cache.hs1.value else Hello(Own(draw), 0);
            && Leaves(sent, mode, p.route.directEP, if due then Hs1(Some(h)) else Probe)
            && q.hs.cache == (if due then p.hs.cache.(hs1 := Some(h)) else p.hs.cache)
            && q.clocks.lastHS1 == (if due then now else p.clocks.lastHS1)
            && q.hs.initiating == (if due && p.hs.cache.hs1.None? then Some(Initiating(Some(h), None, Message1))
                                   else p.hs.initiating)
  {
  }

  /** A retry of the direct path emits a new HS1 there. */
  lemma RetryEmits(self: Self, p: PeerState, draw: nat, now: Time)
    requires self.initiator
    ensures var (q, sent) := Act(self, p, Retry, draw, now);
            var h := Hello(Own(draw), 0);
            && Leaves(sent, Direct, p.route.directEP, Hs1(Some(h)))
            && q.hs == Half(Some(Initiating(Some(h), None, Message1)), None, Cache(Some(h), None, None, None, false))
  {
  }

  /** Fewer than eight HS1 were counted in the current second. */
  predicate InBudget(b: Burst, now: Time) { now - b.start >= 1_000_000_000 || b.count < 8 }

  /** A live direct session and a spent second leave an HS1 without any effect but its count. */
  lemma HelloRefused(self: Self, p: PeerState, msg: Option<Hello>, path: Path, draw: nat, now: Time)
    requires !self.initiator && (!InBudget(p.burst, now) || (p.live.established && p.route.path != Relay))
    ensures var (q, sent) := Act(self, p, Receive(Hs1(msg), path), draw, now);
            sent == Nothing && q == p.(burst := q.burst)
  {
  }

  /** Otherwise an idle responder answers it by the path it came. */
  lemma HelloAnswered(self: Self, p: PeerState, h: Hello, path: Path, draw: nat, now: Time)
    requires !self.initiator && InBudget(p.burst, now) && (p.live.established ==> p.route.path == Relay)
    requires p.hs.responding.None?
    ensures var (q, sent) := Act(self, p, Receive(Hs1(Some(h)), path), draw, now);
            var a := Answer(h, Own(draw), self.me);
            && Leaves(sent, path, p.route.directEP, Hs2(Some(a)))
            && q.hs.responding == Some(Responding(Some(h), Some(Own(draw)), Message2))
            && q.hs.cache.hs1Msg == Some(h) && q.hs.cache.hs2 == Some(a) && q.clocks.hs2SentAt == now
            && q.route == p.route.(mode := path) && q.live == p.live
  {
  }

  /** A half-open one repeats its answer to the HS1 it answered, ignores another for ten seconds and answers it
      after that. */
  lemma HelloAgain(self: Self, p: PeerState, h: Hello, path: Path, draw: nat, now: Time)
    requires !self.initiator && InBudget(p.burst, now) && (p.live.established ==> p.route.path == Relay)
    requires p.hs.responding.Some? && p.hs.cache.hs2.Some?
    ensures var (q, sent) := Act(self, p, Receive(Hs1(Some(h)), path), draw, now);
            var a := Answer(h, Own(draw), self.me);
            && (p.hs.cache.hs1Msg == Some(h) ==>
                  Leaves(sent, path, p.route.directEP, Hs2(p.hs.cache.hs2)) && q == p.(burst := q.burst))
            && (p.hs.cache.hs1Msg != Some(h) && now - p.clocks.hs2SentAt < 10_000_000_000 ==>
                  sent == Nothing && q == p.(burst := q.burst))
            && (p.hs.cache.hs1Msg != Some(h) && now - p.clocks.hs2SentAt >= 10_000_000_000 ==>
                  && Leaves(sent, path, p.route.directEP, Hs2(Some(a)))
                  && q.hs.responding == Some(Responding(Some(h), Some(Own(draw)), Message2))
                  && q.hs.cache.hs1Msg == Some(h) && q.hs.cache.hs2 == Some(a))
  {
  }

  /** The registered peer's answer to the hello out is met with HS3 by the path it came. */
  predicate Expected(self: Self, p: PeerState, a: Answer) {
    && self.initiator && p.hs.initiating == Some(Initiating(Some(a.hello), None, Message1))
    && a.responder == self.them
  }

  lemma AnswerClosed(self: Self, p: PeerState, a: Answer, path: Path, draw: nat, now: Time)
    requires Expected(self, p, a)
    ensures var (q, sent) := Act(self, p, Receive(Hs2(Some(a)), path), draw, now);
            var t := Transcript(a.hello, a.er, self.me, a.responder);
            && Leaves(sent, path, p.route.directEP, Hs3(Some(t)))
            && q.hs.cache.hs3 == Some(t) && q.hs.cache.hs3Pending && BindingOf(q) == Some(t)
            && q.live.established && q.route == p.route.(mode := path, path := path)
  {
  }

  /** While it is pending, every resend puts the cached HS3 on the handshake path. */
  lemma ResendEmits(self: Self, p: PeerState, draw: nat, now: Time)
    ensures var (q, sent) := Act(self, p, Resend, draw, now);
            var due := p.hs.cache.hs3Pending && p.hs.cache.hs3.Some?;
            && (due ==> Leaves(sent, p.route.mode, p.route.directEP, Hs3(p.hs.cache.hs3)))
            && (due ==> (sent == Nothing <==> p.route.mode != Relay && p.route.directEP.None?))
            && (!due ==> sent == Nothing)
            && q == p.(clocks := p.clocks.(lastHS3 := if due then now else p.clocks.lastHS3))
  {
  }

  /** A payload that is sealed leaves by the data path, any other not at all. */
  lemma PayloadEmits(self: Self, p: PeerState, text: Bytes, draw: nat, now: Time)
    ensures var sent := Act(self, p, Payload(text), draw, now).1;
            match Encrypted(p, text)
            case Ok(f) => Leaves(sent, p.route.path, p.route.directEP, Data(Some(f)))
            case Err(_) => sent == Nothing
  {
  }

  /** Nothing else makes a peer speak. */
  lemma OthersAreSilent(self: Self, p: PeerState, l: Local, draw: nat, now: Time)
    requires !l.Try? && !l.Resend? && !l.Payload? && (l.Retry? ==> !self.initiator)
    requires l.Receive? ==> (l.wire.Hs1? ==> self.initiator) && (l.wire.Hs2? ==> !self.initiator)
    ensures Act(self, p, l, draw, now).1 == Nothing
  {
  }
}

/** A peer's fields, told from its history. */
module PeerHistory {
  import opened Wrappers
  import opened Noise
  import opened HandshakeSpec
  import opened WireBudget
  import opened PeerSpec
  import opened MeshSpec
  import opened MeshTheorems
  import opened Hs1Budget
  import opened HalfOpenRuns
  import opened PeerEmits

  // The data path

  predicate Installs(self: Self, ep: Option<Address>, ts: seq<Timed>, i: nat)
    requires i < |ts|
  {
    InstalledBy(self, PeerAt(self, ep, ts, i), ts[i].l).Some?
  }

  /** The path by which the last installed session's handshake ended. */
  function DataPath(self: Self, ep: Option<Address>, ts: seq<Timed>, n: nat): Path
    requires n <= |ts|
  {
    if n == 0 then NoPath
    else if Installs(self, ep, ts, n - 1) then ts[n - 1].l.path
    else DataPath(self, ep, ts, n - 1)
  }

  /** The direct endpoint the peer was last told. */
  function Endpoint(ep: Option<Address>, ts: seq<Timed>, n: nat): Option<Address>
    requires n <= |ts|
  {
    if n == 0 then ep else if ts[n - 1].l.Move? then ts[n - 1].l.ep else Endpoint(ep, ts, n - 1)
  }

  lemma RouteStep(self: Self, p: PeerState, l: Local, draw: nat, now: Time)
    ensures var q := Act(self, p, l, draw, now).0;
            && q.route.directEP == (if l.Move? then l.ep else p.route.directEP)
            && (InstalledBy(self, p, l).Some? ==> l.Receive? && q.route.mode == q.route.path == l.path)
            && (InstalledBy(self, p, l).None? ==> q.route.path == p.route.path)
  {
  }

  lemma {:induction false} RouteIsHistory(self: Self, ep: Option<Address>, ts: seq<Timed>, n: nat)
    requires n <= |ts|
    ensures PeerAt(self, ep, ts, n).route.path == DataPath(self, ep, ts, n)
    ensures PeerAt(self, ep, ts, n).route.directEP == Endpoint(ep, ts, n)
  {
    if n > 0 {
      RouteIsHistory(self, ep, ts, n - 1);
      RouteStep(self, PeerAt(self, ep, ts, n - 1), ts[n - 1].l, ts[n - 1].draw, ts[n - 1].now);
    }
  }

  /** Between two installed sessions every payload leaves by the path of the earlier one, to the endpoint last told,
      whatever the Run loop and the network do to the handshakes in between. */
  lemma {:induction false} PayloadsFollowInstall(self: Self, ep: Option<Address>, ts: seq<Timed>, i: nat, n: nat,
                                                 text: Bytes)
    requires i < n < |ts| && ts[n].l == Payload(text)
    requires Installs(self, ep, ts, i) && forall k :: i < k < n ==> !Installs(self, ep, ts, k)
    ensures ts[i].l.Receive?
    ensures var p := PeerAt(self, ep, ts, n);
            var sent := Act(self, p, ts[n].l, ts[n].draw, ts[n].now).1;
            match Encrypted(p, text)
            case Ok(f) => Leaves(sent, ts[i].l.path, Endpoint(ep, ts, n), Data(Some(f)))
            case Err(_) => sent == Nothing
  {
    RouteIsHistory(self, ep, ts, n);
    PathHolds(self, ep, ts, i, n);
    PayloadEmits(self, PeerAt(self, ep, ts, n), text, ts[n].draw, ts[n].now);
  }

  lemma {:induction false} PathHolds(self: Self, ep: Option<Address>, ts: seq<Timed>, i: nat, n: nat)
    requires i < n <= |ts| && Installs(self, ep, ts, i) && forall k :: i < k < n ==> !Installs(self, ep, ts, k)
    ensures ts[i].l.Receive? && DataPath(self, ep, ts, n) == ts[i].l.path
    decreases n
  {
    if i < n - 1 { PathHolds(self, ep, ts, i, n - 1); }
  }

  /** The path of the handshakes: where the last session came up, or where they moved since. */
  function HandshakePath(self: Self, ep: Option<Address>, ts: seq<Timed>, n: nat): Path
    requires n <= |ts|
  {
    if n == 0 then NoPath
    else
      var to := MovesTo(self, PeerAt(self, ep, ts, n - 1), ts[n - 1].l, ts[n - 1].now);
      if Installs(self, ep, ts, n - 1) then ts[n - 1].l.path
      else if to.Some? then to.value
      else HandshakePath(self, ep, ts, n - 1)
  }

  lemma ModeStep(self: Self, p: PeerState, l: Local, draw: nat, now: Time)
    ensures var q, to := Act(self, p, l, draw, now).0, MovesTo(self, p, l, now);
            q.route.mode
            == if InstalledBy(self, p, l).Some? then l.path else if to.Some? then to.value else p.route.mode
  {
  }

  lemma {:induction false} ModeIsHistory(self: Self, ep: Option<Address>, ts: seq<Timed>, n: nat)
    requires n <= |ts|
    ensures PeerAt(self, ep, ts, n).route.mode == HandshakePath(self, ep, ts, n)
  {
    if n > 0 {
      ModeIsHistory(self, ep, ts, n - 1);
      ModeStep(self, PeerAt(self, ep, ts, n - 1), ts[n - 1].l, ts[n - 1].draw, ts[n - 1].now);
    }
  }

  // Asking

  /** When the initiator last asked, told from the events alone: every retry asks, an attempt after half a second. */
  function LastAsk(self: Self, ts: seq<Timed>, n: nat): Time
    requires n <= |ts|
    decreases n, 0
  {
    if n == 0 then 0 else if Asks(self, ts, n - 1) then ts[n - 1].now else LastAsk(self, ts, n - 1)
  }

  predicate Asks(self: Self, ts: seq<Timed>, i: nat)
    requires i < |ts|
    decreases i, 1
  {
    self.initiator && (ts[i].l.Retry? || (ts[i].l.Try? && ts[i].now - LastAsk(self, ts, i) >= 500_000_000))
  }

  lemma AskStep(self: Self, p: PeerState, l: Local, draw: nat, now: Time)
    ensures Act(self, p, l, draw, now).0.clocks.lastHS1
         == if self.initiator && (l.Retry? || (l.Try? && now - p.clocks.lastHS1 >= 500_000_000)) then now
            else p.clocks.lastHS1
  {
  }

  lemma {:induction false} LastAskIsKept(self: Self, ep: Option<Address>, ts: seq<Timed>, n: nat)
    requires n <= |ts|
    ensures PeerAt(self, ep, ts, n).clocks.lastHS1 == LastAsk(self, ts, n)
  {
    if n > 0 {
      LastAskIsKept(self, ep, ts, n - 1);
      AskStep(self, PeerAt(self, ep, ts, n - 1), ts[n - 1].l, ts[n - 1].draw, ts[n - 1].now);
    }
  }

  /** The steps that end an attempt: a reset of the handshakes, or an answer to it that cannot be used. */
  predicate EndsAttempt(self: Self, p: PeerState, l: Local) {
    || Resets(self, p, l)
    || (self.initiator && l.Receive? && l.wire.Hs2? && p.hs.initiating.Some?
        && !(l.wire.answer.Some? && Expected(self, p, l.wire.answer.value)))
  }

  lemma AttemptStep(self: Self, p: PeerState, l: Local, draw: nat, now: Time)
    requires p.hs.cache.hs1.Some?
    ensures var q := Act(self, p, l, draw, now).0;
            if !EndsAttempt(self, p, l) then q.hs.cache.hs1 == p.hs.cache.hs1
            else q.hs.cache.hs1 == if l.Retry? then Some(Hello(Own(draw), 0)) else None
  {
  }

  lemma {:induction false} AttemptLasts(self: Self, ep: Option<Address>, ts: seq<Timed>, i: nat, n: nat, h: Hello)
    requires i <= n <= |ts| && PeerAt(self, ep, ts, i).hs.cache.hs1 == Some(h)
    requires forall k :: i <= k < n ==> !EndsAttempt(self, PeerAt(self, ep, ts, k), ts[k].l)
    ensures PeerAt(self, ep, ts, n).hs.cache.hs1 == Some(h)
    decreases n
  {
    if i < n {
      AttemptLasts(self, ep, ts, i, n - 1, h);
      AttemptStep(self, PeerAt(self, ep, ts, n - 1), ts[n - 1].l, ts[n - 1].draw, ts[n - 1].now);
    }
  }

  /** Whatever asks at i, asking again at n within the same attempt emits the same HS1, and not sooner than half a
      second after it. */
  lemma OneHelloPerAttempt(self: Self, ep: Option<Address>, ts: seq<Timed>, i: nat, n: nat) returns (h: Hello)
    requires i < n < |ts| && Asks(self, ts, i) && ts[n].l.Try? && Asks(self, ts, n)
    requires forall k :: i < k < n ==> !EndsAttempt(self, PeerAt(self, ep, ts, k), ts[k].l)
    ensures var p, q := PeerAt(self, ep, ts, i), PeerAt(self, ep, ts, n);
            && Leaves(Act(self, p, ts[i].l, ts[i].draw, ts[i].now).1, if ts[i].l.Try? then ts[i].l.mode else Direct,
                      Endpoint(ep, ts, i), Hs1(Some(h)))
            && Leaves(Act(self, q, ts[n].l, ts[n].draw, ts[n].now).1, ts[n].l.mode, Endpoint(ep, ts, n), Hs1(Some(h)))
  {
    var p, q := PeerAt(self, ep, ts, i), PeerAt(self, ep, ts, n);
    RouteIsHistory(self, ep, ts, i);
    RouteIsHistory(self, ep, ts, n);
    LastAskIsKept(self, ep, ts, i);
    LastAskIsKept(self, ep, ts, n);
    h := if ts[i].l.Try? && p.hs.cache.hs1.Some? then p.hs.cache.hs1.value else Hello(Own(ts[i].draw), 0);
    AskEmits(self, p, ts[i], h);
    assert PeerAt(self, ep, ts, i + 1).hs.cache.hs1 == Some(h);
    AttemptLasts(self, ep, ts, i + 1, n, h);
    AskEmits(self, q, ts[n], h);
  }

  lemma AskEmits(self: Self, p: PeerState, e: Timed, h: Hello)
    requires self.initiator && (e.l.Retry? || (e.l.Try? && e.now - p.clocks.lastHS1 >= 500_000_000))
    requires h == if e.l.Try? && p.hs.cache.hs1.Some? then p.hs.cache.hs1.value else Hello(Own(e.draw), 0)
    ensures Act(self, p, e.l, e.draw, e.now).0.hs.cache.hs1 == Some(h)
    ensures Leaves(Act(self, p, e.l, e.draw, e.now).1, if e.l.Try? then e.l.mode else Direct, p.route.directEP,
                   Hs1(Some(h)))
  {
    if e.l.Retry? { RetryEmits(self, p, e.draw, e.now); } else { PunchEmits(self, p, e.l.mode, e.draw, e.now); }
  }

  lemma {:induction false} AskedSince(self: Self, ts: seq<Timed>, i: nat, n: nat)
    requires InOrder(ts) && i < n <= |ts| && Asks(self, ts, i)
    ensures ts[i].now <= LastAsk(self, ts, n)
    decreases n
  {
    if i < n - 1 { AskedSince(self, ts, i, n - 1); }
  }

  /** Over a whole run, two attempts that ask are at least half a second apart. */
  lemma AsksArePaced(self: Self, ts: seq<Timed>, i: nat, n: nat)
    requires InOrder(ts) && i < n < |ts| && Asks(self, ts, i) && ts[n].l.Try? && Asks(self, ts, n)
    ensures ts[n].now - ts[i].now >= 500_000_000
  {
    AskedSince(self, ts, i, n);
  }

  // Half-open exchanges

  /** Exactly which steps leave a half-open responder without an exchange. */
  lemma ExchangeEndsIff(self: Self, p: PeerState, l: Local, draw: nat, now: Time)
    requires !self.initiator && Settled(p.hs) && p.hs.responding.Some?
    ensures Act(self, p, l, draw, now).0.hs.responding.None?
       <==> || Resets(self, p, l) || (l.Tick? && now - p.clocks.hs2SentAt > 10_000_000_000)
            || (l.Receive? && l.wire.Hs3?)
            || (l.Receive? && l.wire.Hs1? && l.wire.hello.None? && InBudget(p.burst, now)
                && (p.live.established ==> p.route.path == Relay) && now - p.clocks.hs2SentAt >= 10_000_000_000)
  {
  }

  /** A tick drops a half-open exchange exactly when the HS1 that opened it is more than ten seconds old, and
      otherwise changes nothing at all. */
  lemma TickDecides(self: Self, ep: Option<Address>, ts: seq<Timed>, n: nat, p: PeerState, q: PeerState)
    returns (i: nat)
    requires !self.initiator && n < |ts| && ts[n].l.Tick?
    requires p == PeerAt(self, ep, ts, n) && q == PeerAt(self, ep, ts, n + 1) && p.hs.responding.Some?
    ensures i < n && OpenedBy(p, ts[i])
    ensures q.hs.responding.None? <==> ts[n].now - ts[i].now > 10_000_000_000
    ensures q.hs.responding.Some? ==> q == p
  {
    AlwaysSettled(self, ep, ts, n);
    i := ExchangeHasOrigin(self, ep, ts, n);
  }

  // Reception

  /** The non-empty payloads accepted in the first n steps, in order. */
  function Received(self: Self, ep: Option<Address>, ts: seq<Timed>, n: nat): seq<Bytes>
    requires n <= |ts|
  {
    if n == 0 then []
    else
      var l := ts[n - 1].l;
      var d := if l.Receive? && l.wire.Data? then Delivered(PeerAt(self, ep, ts, n - 1), l.wire.frame) else None;
      Received(self, ep, ts, n - 1) + if d.Some? && d.value != [] then [d.value] else []
  }

  function Front(xs: seq<Bytes>): seq<Bytes> { if |xs| <= 64 then xs else xs[..64] }

  lemma QueueStep(self: Self, p: PeerState, l: Local, draw: nat, now: Time)
    ensures var d := if l.Receive? && l.wire.Data? then Delivered(p, l.wire.frame) else None;
            Act(self, p, l, draw, now).0.inbox.recv
            == if d.Some? && d.value != [] && |p.inbox.recv| < 64 then p.inbox.recv + [d.value] else p.inbox.recv
  {
  }

  /** The receive channel holds the accepted non-empty payloads in the order of their acceptance, the first 64. */
  lemma {:induction false} QueueIsReceived(self: Self, ep: Option<Address>, ts: seq<Timed>, n: nat)
    requires n <= |ts|
    ensures PeerAt(self, ep, ts, n).inbox.recv == Front(Received(self, ep, ts, n))
  {
    if n > 0 {
      QueueIsReceived(self, ep, ts, n - 1);
      QueueStep(self, PeerAt(self, ep, ts, n - 1), ts[n - 1].l, ts[n - 1].draw, ts[n - 1].now);
    }
  }

  /** The peer was closed, or its Run loop ended. */
  predicate ShutBefore(ts: seq<Timed>, n: nat)
    requires n <= |ts|
  {
    exists i :: 0 <= i < n && ts[i].l.Shut?
  }

  lemma ShutStep(self: Self, p: PeerState, l: Local, draw: nat, now: Time)
    ensures var q := Act(self, p, l, draw, now).0;
            q.inbox.closed || q.inbox.recvClosed <==> p.inbox.closed || p.inbox.recvClosed || l.Shut?
  {
  }

  lemma {:induction false} ShutIsHistory(self: Self, ep: Option<Address>, ts: seq<Timed>, n: nat)
    requires n <= |ts|
    ensures var p := PeerAt(self, ep, ts, n); p.inbox.closed || p.inbox.recvClosed <==> ShutBefore(ts, n)
  {
    if n > 0 {
      ShutIsHistory(self, ep, ts, n - 1);
      ShutStep(self, PeerAt(self, ep, ts, n - 1), ts[n - 1].l, ts[n - 1].draw, ts[n - 1].now);
      if ShutBefore(ts, n - 1) { var i :| 0 <= i < n - 1 && ts[i].l.Shut?; assert ts[i].l.Shut?; }
      if ts[n - 1].l.Shut? { assert ShutBefore(ts, n); }
    }
  }

  /** A peer has a session, and counts as established, from the first one installed on except after a forced
      re-handshake. */
  predicate HasSession(self: Self, ep: Option<Address>, ts: seq<Timed>, n: nat)
    requires n <= |ts|
  {
    n > 0 && (Installs(self, ep, ts, n - 1) || (HasSession(self, ep, ts, n - 1) && !ts[n - 1].l.Force?))
  }

  lemma {:induction false} SessionIsHistory(self: Self, ep: Option<Address>, ts: seq<Timed>, n: nat)
    requires n <= |ts|
    ensures var p := PeerAt(self, ep, ts, n);
            && (p.live.sess.Some? <==> HasSession(self, ep, ts, n))
            && (p.live.established <==> HasSession(self, ep, ts, n))
  {
    if n > 0 {
      SessionIsHistory(self, ep, ts, n - 1);
      EstablishedStep(self, PeerAt(self, ep, ts, n - 1), ts[n - 1].l, ts[n - 1].draw, ts[n - 1].now);
    }
  }

  lemma EstablishedStep(self: Self, p: PeerState, l: Local, draw: nat, now: Time)
    ensures var q, t := Act(self, p, l, draw, now).0, InstalledBy(self, p, l);
            && (q.live.sess.Some? <==> t.Some? || (p.live.sess.Some? && !l.Force?))
            && (q.live.established <==> t.Some? || (p.live.established && !l.Force?))
  {
  }

  /** What a peer takes from the network: nothing once it is shut, nothing without a session. */
  lemma ReceivesIff(self: Self, ep: Option<Address>, ts: seq<Timed>, n: nat, p: PeerState)
    requires n <= |ts| && p == PeerAt(self, ep, ts, n)
    ensures Receives(p) <==> !ShutBefore(ts, n) && HasSession(self, ep, ts, n)
    ensures !Receives(p) ==> forall f :: Delivered(p, f) == None && OnData(p, f) == p
  {
    ShutIsHistory(self, ep, ts, n);
    SessionIsHistory(self, ep, ts, n);
  }

  // Clocks

  datatype Dial = SessSince | LastSent | LastHS3 | Hs2SentAt | PhaseStart

  function Reading(c: Clocks, d: Dial): Time {
    match d
    case SessSince => c.sessSince
    case LastSent => c.lastSent
    case LastHS3 => c.lastHS3
    case Hs2SentAt => c.hs2SentAt
    case PhaseStart => c.phaseStart
  }

  /** The steps that set a clock: session age, keepalive, resending, half-open timeout and attempt. */
  predicate Strikes(self: Self, p: PeerState, e: Timed, d: Dial) {
    var installs := InstalledBy(self, p, e.l).Some?;
    match d
    case SessSince => installs
    case LastSent => installs || (e.l.Payload? && Encrypted(p, e.l.text).Ok?)
    case LastHS3 => (installs && self.initiator) || (e.l.Resend? && p.hs.cache.hs3Pending && p.hs.cache.hs3.Some?)
    case Hs2SentAt => e.l.Receive? && AnswersAnew(self, p, e.l.wire, e.now)
    case PhaseStart => MovesTo(self, p, e.l, e.now).Some? || e.l.Force?
  }

  lemma DialStep(self: Self, p: PeerState, e: Timed, d: Dial)
    ensures Reading(Act(self, p, e.l, e.draw, e.now).0.clocks, d)
         == if Strikes(self, p, e, d) then e.now else Reading(p.clocks, d)
  {
  }

  function LastStrike(self: Self, ep: Option<Address>, ts: seq<Timed>, n: nat, d: Dial): Time
    requires n <= |ts|
  {
    if n == 0 then 0
    else if Strikes(self, PeerAt(self, ep, ts, n - 1), ts[n - 1], d) then ts[n - 1].now
    else LastStrike(self, ep, ts, n - 1, d)
  }

  /** Over every run each clock the Run loop reads stands at the last step that sets it. */
  lemma {:induction false} DialsTell(self: Self, ep: Option<Address>, ts: seq<Timed>, n: nat, d: Dial)
    requires n <= |ts|
    ensures Reading(PeerAt(self, ep, ts, n).clocks, d) == LastStrike(self, ep, ts, n, d)
  {
    if n > 0 {
      DialsTell(self, ep, ts, n - 1, d);
      DialStep(self, PeerAt(self, ep, ts, n - 1), ts[n - 1], d);
    }
  }
}
