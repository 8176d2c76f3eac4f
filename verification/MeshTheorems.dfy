/** What every run of two peers over a hostile network keeps. */
module MeshTheorems {
  import opened Wrappers
  import opened Noise
  import opened SessionSpec
  import opened HandshakeSpec
  import opened KeySchedule
  import opened ReplaySpec
  import opened DataPlane
  import opened WireBudget
  import opened PeerSpec
  import opened MeshSpec
  import opened MeshLedger
  import opened MeshHandshake
  import opened MeshRuns
  import Budget

  /** s is what some possible run reaches from two peers just created. */
  ghost predicate Reached(pr: Pair, epA: Option<Address>, epB: Option<Address>, es: seq<Step>, n: nat, s: Sys) {
    Paired(pr) && n <= |es| && Possible(pr, epA, epB, es, n) && s == SysAt(pr, epA, epB, es, n)
  }

  lemma ReachedHolds(pr: Pair, epA: Option<Address>, epB: Option<Address>, es: seq<Step>, n: nat, s: Sys)
    requires Reached(pr, epA, epB, es, n, s)
    ensures Inv(pr, s)
  {
    AlwaysHolds(pr, epA, epB, es, n, s);
  }

  // Delivery

  /** Each payload a peer accepted was sent by the other in that same session, and no session accepts
      a nonce twice, over the peer's whole life. */
  lemma DeliveredOnceAsSent(pr: Pair, epA: Option<Address>, epB: Option<Address>, es: seq<Step>, n: nat, s: Sys)
    requires Reached(pr, epA, epB, es, n, s)
    ensures forall r :: r in s.a.got ==> r in s.b.sent && r.t in s.b.installs && r.t in s.a.installs
    ensures forall r :: r in s.b.got ==> r in s.a.sent && r.t in s.a.installs && r.t in s.b.installs
    ensures forall i, j :: 0 <= i < j < |s.a.got| ==>
              s.a.got[i].t != s.a.got[j].t || s.a.got[i].nonce != s.a.got[j].nonce
    ensures forall i, j :: 0 <= i < j < |s.b.got| ==>
              s.b.got[i].t != s.b.got[j].t || s.b.got[i].nonce != s.b.got[j].nonce
  {
    ReachedHolds(pr, epA, epB, es, n, s);
  }

  /** The key and nonce a sent payload was sealed under. */
  function SealedUnder(r: Item, dir: Direction): (Key, nat) {
    (SealedAs(r, dir).key, r.nonce)
  }

  lemma DifferentSeals(r: Item, dr: Direction, q: Item, dq: Direction)
    requires r.t != q.t || r.nonce != q.nonce || dr != dq
    ensures SealedUnder(r, dr) != SealedUnder(q, dq)
  {
    if SealedUnder(r, dr) == SealedUnder(q, dq) {
      RekeyInjective(Root(r.t, dr), EpochOf(r.nonce, DEFAULT_REKEY_EVERY), Root(q.t, dq),
                     EpochOf(q.nonce, DEFAULT_REKEY_EVERY));
    }
  }

  /** Across all sessions, re-handshakes and both directions no key and nonce ever seal two payloads. */
  lemma NoKeyNonceReuse(pr: Pair, epA: Option<Address>, epB: Option<Address>, es: seq<Step>, n: nat, s: Sys)
    requires Reached(pr, epA, epB, es, n, s)
    ensures forall i, j :: 0 <= i < j < |s.a.sent| ==>
              SealedUnder(s.a.sent[i], ToResponder) != SealedUnder(s.a.sent[j], ToResponder)
    ensures forall i, j :: 0 <= i < j < |s.b.sent| ==>
              SealedUnder(s.b.sent[i], ToInitiator) != SealedUnder(s.b.sent[j], ToInitiator)
    ensures forall i, j :: 0 <= i < |s.a.sent| && 0 <= j < |s.b.sent| ==>
              SealedUnder(s.a.sent[i], ToResponder) != SealedUnder(s.b.sent[j], ToInitiator)
  {
    ReachedHolds(pr, epA, epB, es, n, s);
    forall i, j | 0 <= i < j < |s.a.sent|
        ensures SealedUnder(s.a.sent[i], ToResponder) != SealedUnder(s.a.sent[j], ToResponder) {
      DifferentSeals(s.a.sent[i], ToResponder, s.a.sent[j], ToResponder);
    }
    forall i, j | 0 <= i < j < |s.b.sent|
        ensures SealedUnder(s.b.sent[i], ToInitiator) != SealedUnder(s.b.sent[j], ToInitiator) {
      DifferentSeals(s.b.sent[i], ToInitiator, s.b.sent[j], ToInitiator);
    }
    forall i, j | 0 <= i < |s.a.sent| && 0 <= j < |s.b.sent|
      ensures SealedUnder(s.a.sent[i], ToResponder) != SealedUnder(s.b.sent[j], ToInitiator)
    {
      DifferentSeals(s.a.sent[i], ToResponder, s.b.sent[j], ToInitiator);
    }
  }

  lemma OneSealPerNonce(sent: seq<Item>, dir: Direction, r: Item, q: Item)
    requires Distinct(sent) && r in sent && q in sent
    requires SealedAs(r, dir).key == SealedAs(q, dir).key && r.nonce == q.nonce
    ensures r == q
  {
    var i :| 0 <= i < |sent| && sent[i] == r;
    var j :| 0 <= j < |sent| && sent[j] == q;
    if r.t != q.t { DifferentSeals(r, dir, q, dir); }
  }

  /** The ciphertexts on the network: two under one key of the peers and one nonce are the same. */
  lemma OneCiphertextPerNonce(pr: Pair, epA: Option<Address>, epB: Option<Address>, es: seq<Step>, n: nat, s: Sys,
                              f: Frame<Box>, g: Frame<Box>)
    requires Reached(pr, epA, epB, es, n, s) && Data(Some(f)) in s.net && Data(Some(g)) in s.net
    requires Honest(pr, f.box) && Honest(pr, g.box) && f.box.key == g.box.key && f.box.nonce == g.box.nonce
    ensures f.box == g.box
  {
    ReachedHolds(pr, epA, epB, es, n, s);
    assert WireOk(pr, s, Data(Some(f))) && WireOk(pr, s, Data(Some(g)));
    var dir := RootOf(f.box.key).dir;
    var sent := if dir == ToResponder then s.a.sent else s.b.sent;
    var r :| r in sent && f.box == SealedAs(r, dir);
    var q :| q in sent && g.box == SealedAs(q, dir);
    OneSealPerNonce(sent, dir, r, q);
  }

  // Sessions

  /** The places in xs of the elements of ys. */
  ghost predicate Embeds<T>(xs: seq<T>, ys: seq<T>, f: seq<nat>) {
    && |f| == |ys|
    && (forall i :: 0 <= i < |f| ==> f[i] < |xs| && xs[f[i]] == ys[i])
    && (forall i, j :: 0 <= i < j < |f| ==> f[i] < f[j])
  }

  lemma IndexOf(ts: seq<Transcript>, t: Transcript) returns (i: nat)
    requires t in ts
    ensures i < |ts| && ts[i] == t
  {
    i :| 0 <= i < |ts| && ts[i] == t;
  }

  lemma EmbedOneMore(pr: Pair, xs: seq<Transcript>, ys: seq<Transcript>, f: seq<nat>, k: nat, next: nat)
    requires ChainA(pr, xs, next) && ChainB(pr, ys, next) && ys != []
    requires Embeds(xs, ys[..|ys| - 1], f) && k < |xs| && xs[k] == ys[|ys| - 1]
    ensures Embeds(xs, ys, f + [k])
  {
    forall i | 0 <= i < |f| ensures f[i] < k {
      EarlierAnswer(pr, xs, f[i], k, next);
      assert xs[f[i]] == ys[..|ys| - 1][i];
    }
  }

  lemma ChainInit(pr: Pair, ys: seq<Transcript>, next: nat)
    requires ChainB(pr, ys, next) && ys != []
    ensures ChainB(pr, ys[..|ys| - 1], next) && forall t :: t in ys[..|ys| - 1] ==> t in ys
  {
  }

  lemma {:induction false} InOrderEmbedding(pr: Pair, xs: seq<Transcript>, ys: seq<Transcript>, next: nat)
    returns (f: seq<nat>)
    requires ChainA(pr, xs, next) && ChainB(pr, ys, next) && forall t :: t in ys ==> t in xs
    ensures Embeds(xs, ys, f)
    decreases |ys|
  {
    if ys == [] {
      f := [];
    } else {
      ChainInit(pr, ys, next);
      f := InOrderEmbedding(pr, xs, ys[..|ys| - 1], next);
      assert ys[|ys| - 1] in ys;
      var k := IndexOf(xs, ys[|ys| - 1]);
      EmbedOneMore(pr, xs, ys, f, k, next);
      f := f + [k];
    }
  }

  /** In the initiator's list the one answered earlier stands earlier. */
  lemma EarlierAnswer(pr: Pair, xs: seq<Transcript>, i: nat, k: nat, next: nat)
    requires ChainA(pr, xs, next) && i < |xs| && k < |xs|
    ensures xs[i].er.id < xs[k].er.id ==> i < k
  {
    assert xs[i] in xs && xs[k] in xs;
  }

  /** The sessions the responder installs are an in-order subsequence of those the initiator installed;
      no session is ever installed twice on either side. */
  lemma SessionsInOrder(pr: Pair, epA: Option<Address>, epB: Option<Address>, es: seq<Step>, n: nat, s: Sys)
    returns (f: seq<nat>)
    requires Reached(pr, epA, epB, es, n, s)
    ensures Embeds(s.a.installs, s.b.installs, f)
    ensures forall i, j :: 0 <= i < j < |s.a.installs| ==> s.a.installs[i] != s.a.installs[j]
    ensures forall i, j :: 0 <= i < j < |s.b.installs| ==> s.b.installs[i] != s.b.installs[j]
  {
    ReachedHolds(pr, epA, epB, es, n, s);
    f := InOrderEmbedding(pr, s.a.installs, s.b.installs, s.next);
    AllDifferentA(pr, s.a.installs, s.next);
  }

  lemma AllDifferentA(pr: Pair, ts: seq<Transcript>, next: nat)
    requires ChainA(pr, ts, next)
    ensures forall i, j :: 0 <= i < j < |ts| ==> ts[i] != ts[j]
  {
    forall i, j | 0 <= i < j < |ts| ensures ts[i] != ts[j] {
      assert ts[i] in ts && ts[j] in ts;
    }
  }

  /** Two peers holding the same session hold crossed keys of it and name each other. */
  lemma CrossedKeys(pr: Pair, epA: Option<Address>, epB: Option<Address>, es: seq<Step>, n: nat, s: Sys, t: Transcript)
    requires Reached(pr, epA, epB, es, n, s) && BindingOf(s.a.peer) == BindingOf(s.b.peer) == Some(t)
    ensures s.a.installs != [] && s.b.installs != []
    ensures Last(s.a.installs) == Last(s.b.installs) == t && t.initiator == pr.a.me && t.responder == pr.b.me
    ensures s.a.peer.live.sess.Some? && s.b.peer.live.sess.Some?
    ensures var a, b := s.a.peer.live.sess.value, s.b.peer.live.sess.value;
            && a.send.Some? && a.recv.Some? && b.send.Some? && b.recv.Some?
            && a.send.value.k == Rekey(Root(t, ToResponder), a.sendEpoch)
            && b.recv.value.k == Rekey(Root(t, ToResponder), b.recvEpoch)
            && b.send.value.k == Rekey(Root(t, ToInitiator), b.sendEpoch)
            && a.recv.value.k == Rekey(Root(t, ToInitiator), a.recvEpoch)
  {
    ReachedHolds(pr, epA, epB, es, n, s);
  }

  /** While both hold the same session, a payload either sends is accepted by the other exactly when
      its nonce is acceptable there, and yields the plaintext. */
  lemma SameSessionDelivers(pr: Pair, epA: Option<Address>, epB: Option<Address>, es: seq<Step>, n: nat, s: Sys,
                            text: Bytes)
    requires Reached(pr, epA, epB, es, n, s) && BindingOf(s.a.peer).Some? && BindingOf(s.a.peer) == BindingOf(s.b.peer)
    ensures !s.b.peer.inbox.closed && !s.b.peer.inbox.recvClosed && Encrypted(s.a.peer, text).Ok? ==>
              var f := Encrypted(s.a.peer, text).value;
              Delivered(s.b.peer, Some(f)) == if Acceptable(RxOf(s.b.peer), f.nonce) then Some(text) else None
    ensures !s.a.peer.inbox.closed && !s.a.peer.inbox.recvClosed && Encrypted(s.b.peer, text).Ok? ==>
              var f := Encrypted(s.b.peer, text).value;
              Delivered(s.a.peer, Some(f)) == if Acceptable(RxOf(s.a.peer), f.nonce) then Some(text) else None
  {
    ReachedHolds(pr, epA, epB, es, n, s);
    SentIsDelivered(true, s.a.peer, s.b.peer, BindingOf(s.a.peer).value, text);
    SentIsDelivered(false, s.b.peer, s.a.peer, BindingOf(s.a.peer).value, text);
  }

  /** However late it arrives, a payload sent in the session the receiver still holds is accepted exactly when
      its nonce is acceptable; the sender may have moved on. */
  lemma LoggedDelivers(pr: Pair, epA: Option<Address>, epB: Option<Address>, es: seq<Step>, n: nat, s: Sys, r: Item)
    requires Reached(pr, epA, epB, es, n, s)
    ensures r in s.a.sent && BindingOf(s.b.peer) == Some(r.t)
            && !s.b.peer.inbox.closed && !s.b.peer.inbox.recvClosed ==>
              Delivered(s.b.peer, Some(Frame(r.nonce, SealedAs(r, ToResponder))))
              == if Acceptable(RxOf(s.b.peer), r.nonce) then Some(r.text) else None
    ensures r in s.b.sent && BindingOf(s.a.peer) == Some(r.t)
            && !s.a.peer.inbox.closed && !s.a.peer.inbox.recvClosed ==>
              Delivered(s.a.peer, Some(Frame(r.nonce, SealedAs(r, ToInitiator))))
              == if Acceptable(RxOf(s.a.peer), r.nonce) then Some(r.text) else None
  {
    ReachedHolds(pr, epA, epB, es, n, s);
    if BindingOf(s.b.peer) == Some(r.t) && Receives(s.b.peer) { SealedIsDelivered(false, s.b.peer, r); }
    if BindingOf(s.a.peer) == Some(r.t) && Receives(s.a.peer) { SealedIsDelivered(true, s.a.peer, r); }
  }

  lemma SealedIsDelivered(initiator: bool, y: PeerState, r: Item)
    requires SessionOf(initiator, y.live, r.t) && Receives(y)
    ensures Delivered(y, Some(Frame(r.nonce, SealedAs(r, Out(!initiator)))))
         == if Acceptable(RxOf(y), r.nonce) then Some(r.text) else None
  {
    SymbolicIsCorrect();
    ExactAcceptance(SYMBOLIC, RxOf(y), Root(r.t, Out(initiator)), Root(r.t, Out(!initiator)), r.nonce, r.text);
  }

  lemma SentIsDelivered(initiator: bool, x: PeerState, y: PeerState, t: Transcript, text: Bytes)
    requires SessionOf(initiator, x.live, t) && SessionOf(!initiator, y.live, t)
    ensures Receives(y) && Encrypted(x, text).Ok? ==>
              var f := Encrypted(x, text).value;
              Delivered(y, Some(f)) == if Acceptable(RxOf(y), f.nonce) then Some(text) else None
  {
    SendStep(SYMBOLIC, x.live.sess.value, Root(t, Out(initiator)), Root(t, Out(!initiator)), text);
    if Receives(y) && Encrypted(x, text).Ok? {
      SymbolicIsCorrect();
      ExactAcceptance(SYMBOLIC, RxOf(y), Root(t, Out(!initiator)), Root(t, Out(initiator)),
                      Encrypted(x, text).value.nonce, text);
    }
  }

  lemma SymbolicIsCorrect()
    ensures Correct(SYMBOLIC)
  {
    forall k, n, p ensures SYMBOLIC.open(k, n, SYMBOLIC.seal(k, n, p)) == Some(p) {
      assert SYMBOLIC.seal(k, n, p) == SealBox(k, n, p);
      assert SYMBOLIC.open(k, n, SealBox(k, n, p)) == OpenBox(k, n, SealBox(k, n, p));
    }
  }

  // The handshake itself

  /** The three messages of an undisturbed round, each handed over as the sender cached it. */
  function AfterRound(pr: Pair, p: PeerState, q: PeerState, path: Path, draw: nat, t1: Time, t2: Time, t3: Time)
    : (PeerState, PeerState)
  {
    var q1 := OnHS1(pr.b, q, p.hs.cache.hs1, path, draw, t1).0;
    var p1 := OnHS2(pr.a, p, q1.hs.cache.hs2, path, t2).0;
    (p1, OnHS3(pr.b, q1, p1.hs.cache.hs3, path, t3))
  }

  /** Whatever both peers held before, an undisturbed round to a responder that is idle and does not
      refuse it installs one fresh session on both sides. */
  lemma RoundInstalls(pr: Pair, p: PeerState, q: PeerState, h: Hello, path: Path, draw: nat, t1: Time, t2: Time,
                      t3: Time)
    requires Paired(pr) && p.hs.initiating == Some(Initiating(Some(h), None, Message1)) && p.hs.cache.hs1 == Some(h)
    requires q.hs.responding.None? && !Hs1Refused(q, t1)
    ensures var r := AfterRound(pr, p, q, path, draw, t1, t2, t3);
            var t := Transcript(h, Own(draw), pr.a.me, pr.b.me);
            && r.0.live == Live(Some(InitiatorSession(t)), EMPTY, true)
            && r.1.live == Live(Some(ResponderSession(t)), EMPTY, true)
            && r.0.hs.cache.hs3Pending && r.1.hs.responding.None?
            && r.0.route.path == r.1.route.path == path
  {
  }

  /** The first payload over a session just installed is accepted and ends the wait for it. */
  lemma RoundDelivers(pr: Pair, p: PeerState, q: PeerState, h: Hello, path: Path, draw: nat, t1: Time, t2: Time,
                      t3: Time,
                      text: Bytes)
    requires Paired(pr) && p.hs.initiating == Some(Initiating(Some(h), None, Message1)) && p.hs.cache.hs1 == Some(h)
    requires q.hs.responding.None? && !Hs1Refused(q, t1) && |text| <= Limit(path)
    ensures var r := AfterRound(pr, p, q, path, draw, t1, t2, t3);
            && Encrypted(r.1, text).Ok?
            && (!p.inbox.closed && !p.inbox.recvClosed ==>
                  && Delivered(r.0, Some(Encrypted(r.1, text).value)) == Some(text)
                  && !OnData(r.0, Some(Encrypted(r.1, text).value)).hs.cache.hs3Pending)
  {
  }

  // Half-open exchanges

  /** In every reachable state a half-open responder is in phase 2 with its HS1 and HS2 cached, so a
      repeated HS1 that is not refused gets the identical HS2 and changes nothing but the budget, and
      the only HS3 that fails is one that closes another exchange. */
  lemma HalfOpenIsCoherent(pr: Pair, epA: Option<Address>, epB: Option<Address>, es: seq<Step>, n: nat, s: Sys,
                           path: Path, draw: nat, now: Time)
    requires Reached(pr, epA, epB, es, n, s) && s.b.peer.hs.responding.Some?
    ensures var r := s.b.peer.hs.responding.value;
            && r.phase == Message2 && r.hello.Some? && r.er.Some?
            && s.b.peer.hs.cache.hs1Msg == r.hello
            && s.b.peer.hs.cache.hs2 == Some(Answer(r.hello.value, r.er.value, pr.b.me))
            && (!Hs1Refused(s.b.peer, now) ==>
                  OnHS1(pr.b, s.b.peer, r.hello, path, draw, now)
                  == (s.b.peer.(burst := Counted(s.b.peer.burst, now)),
                      SendFrame(path, s.b.peer.route.directEP, Hs2(s.b.peer.hs.cache.hs2))))
            && forall t ::
                 Closes(r, pr.b.me, Some(t)) <==> t == Transcript(r.hello.value, r.er.value, t.initiator, pr.b.me)
  {
    ReachedHolds(pr, epA, epB, es, n, s);
  }

  /** The initiator's HS3 in resend is the live session's, and data from the responder ends the resending
      only if the responder installed that very session. */
  lemma DataProvesInstalled(pr: Pair, epA: Option<Address>, epB: Option<Address>, es: seq<Step>, n: nat, s: Sys,
                            f: Option<Frame<Box>>, path: Path, now: Time)
    requires Reached(pr, epA, epB, es, n, s) && s.a.peer.hs.cache.hs3Pending
    requires Allowed(pr, s, AtA(Receive(Data(f), path), now))
    ensures s.a.peer.hs.cache.hs3.Some? && BindingOf(s.a.peer) == s.a.peer.hs.cache.hs3
    ensures !Next(pr, s, AtA(Receive(Data(f), path), now)).a.peer.hs.cache.hs3Pending ==>
              BindingOf(s.a.peer).value in s.b.installs
  {
    ReachedHolds(pr, epA, epB, es, n, s);
    DeliverableIsOk(pr, s, Data(f));
    var l := Receive(Data(f), path);
    ClearedByDelivery(pr.a, s.a.peer, f, path, s.next, now);
    if GotBy(s.a.peer, l).Some? {
      AcceptedWasSent(pr, s, pr.a, s.a, f.value, path, GotBy(s.a.peer, l).value);
    }
  }

  lemma ClearedByDelivery(self: Self, p: PeerState, f: Option<Frame<Box>>, path: Path, draw: nat, now: Time)
    requires p.hs.cache.hs3Pending && BindingOf(p).Some?
    ensures !Act(self, p, Receive(Data(f), path), draw, now).0.hs.cache.hs3Pending
            <==> GotBy(p, Receive(Data(f), path)).Some?
  {
  }

  // What the initiator's flags do not promise

  /** The critical sections that drop a handshake in flight. */
  predicate Resets(self: Self, p: PeerState, l: Local) {
    || l.Force? || (self.initiator && l.Retry?) || (self.initiator && l.Abandon? && p.route.mode == Direct)
    || (l.Switch? && ((l.current == Direct && self.relay.Some?) || (l.current == Relay && p.route.directEP.Some?)))
  }

  /** An initiator stops resending HS3 exactly when data of the session arrives or the Run loop resets
      the handshake, be it on an outdated snapshot or to try the direct path again. */
  lemma PendingEndsIff(self: Self, p: PeerState, l: Local, draw: nat, now: Time)
    requires self.initiator && p.hs.cache.hs3Pending
    ensures !Act(self, p, l, draw, now).0.hs.cache.hs3Pending
       <==> Resets(self, p, l) || (l.Receive? && l.wire.Data? && Delivered(p, l.wire.frame).Some?)
  {
  }

  /** A responder answers this HS1 anew: it is not refused, and no exchange is open unless it is another one's
      and has timed out. */
  predicate AnswersAnew(self: Self, p: PeerState, w: Wire, now: Time) {
    && !self.initiator && w.Hs1? && w.hello.Some? && !Hs1Refused(p, now)
    && (if p.hs.responding.Some? && p.hs.cache.hs2.Some?
        then w.hello != p.hs.cache.hs1Msg && now - p.clocks.hs2SentAt >= RESPONDER_TIMEOUT
        else p.hs.responding.None? || p.hs.responding.value.phase == Phase.Start)
  }

  /** The path a peer's handshakes move to while its data stays where it is, if the step does that: the Run loop
      moves either role's, an answered HS1 a responder's. */
  function MovesTo(self: Self, p: PeerState, l: Local, now: Time): Option<Path> {
    match l
    case Start => if p.route.directEP.Some? then Some(Direct) else if self.relay.Some? then Some(Relay) else None
    case Switch(current) => if Resets(self, p, l) then Some(if current == Direct then Relay else Direct) else None
    case Retry => if self.initiator then Some(Direct) else None
    case Abandon => if Resets(self, p, l) then Some(Relay) else None
    case Receive(w, path) => if AnswersAnew(self, p, w, now) then Some(path) else None
    case _ => None
  }

  /** For an established peer of either role whose handshake path is its data path, they stay equal over a step
      exactly when the step does not move the handshakes elsewhere. */
  lemma ModeIsPathIff(self: Self, p: PeerState, l: Local, draw: nat, now: Time)
    requires p.live.established && p.route.mode == p.route.path
    ensures var q, to := Act(self, p, l, draw, now).0, MovesTo(self, p, l, now);
            q.route.mode == q.route.path <==> to == None || to == Some(p.route.path)
  {
  }

  /** The session is up, but the initiator's handshakes sit on another path than its data and the HS3 the
      responder needs is neither pending nor resendable. */
  ghost predicate Stranded(p: PeerState, now: Time) {
    p.live.established && p.route.mode != p.route.path && !p.hs.cache.hs3Pending && ResendHS3(p, now) == (p, Nothing)
  }

  /** A path switch decided before HS2 arrived and carried out after it strands the initiator, and leaves the
      session as it is. */
  lemma LateSwitchStrands(self: Self, p: PeerState, draw: nat, now: Time)
    requires self.initiator && self.relay.Some? && p.live.established && p.route.mode == p.route.path == Direct
    ensures var q := Act(self, p, Switch(Direct), draw, now).0; Stranded(q, now) && q.live == p.live
  {
  }

  /** The same from the arrival of HS2 on: the switch loses the HS3 just cached. */
  lemma LateSwitchStrandsHs3(p: PeerState, self: Self, msg: Option<Answer>, draw: nat, t0: Time, t1: Time)
    requires self.initiator && self.relay.Some? && p.hs.initiating.Some?
             && Answers(p.hs.initiating.value, self.them, msg)
    ensures var q := Act(self, p, Receive(Hs2(msg), Direct), draw, t0).0;
            var r := Act(self, q, Switch(Direct), draw + 1, t1).0;
            && q.live.established && q.hs.cache.hs3Pending && q.route.mode == q.route.path == Direct
            && Stranded(r, t1) && r.live == q.live && r.route.mode == Relay && r.hs == NO_HANDSHAKE
  {
  }

  const REESTABLISH_INTERVAL: nat := 10 * Budget.SECOND

  /** The Run loop's own reason to retry the direct path, on an up-to-date view of the peer. */
  predicate RetryDue(self: Self, p: PeerState, now: Time) {
    && p.live.established && p.route.path == Relay && self.initiator && p.route.directEP.Some?
    && p.route.mode != Direct && now - p.clocks.lastHS1 > REESTABLISH_INTERVAL
  }

  /** A retry that is due strands the initiator all the same: it is no race at all. */
  lemma RetryStrands(self: Self, p: PeerState, draw: nat, now: Time)
    requires RetryDue(self, p, now)
    ensures var q := Act(self, p, Retry, draw, now).0; Stranded(q, now) && q.live == p.live
  {
  }

  /** The run that opens a session over one path: start, HS1, its answer and the answer's arrival. */
  function Opening(pr: Pair, path: Path): seq<Step> {
    var h := Hello(Own(1), 0);
    [AtA(Local.Start, Budget.SECOND), AtA(Try(path), Budget.SECOND), AtB(Receive(Hs1(Some(h)), path), Budget.SECOND),
     AtA(Receive(Hs2(Some(Answer(h, Own(2), pr.b.me))), path), Budget.SECOND)]
  }

  /** One more allowed step of a run. */
  lemma ReachedNext(pr: Pair, epA: Option<Address>, epB: Option<Address>, es: seq<Step>, n: nat, s: Sys, s': Sys)
    requires Reached(pr, epA, epB, es, n, s) && n < |es| && Allowed(pr, s, es[n]) && s' == Next(pr, s, es[n])
    ensures Reached(pr, epA, epB, es, n + 1, s')
  {
  }

  /** Start and the first HS1. */
  lemma OpeningAsks(pr: Pair, epA: Option<Address>, epB: Option<Address>, path: Path, s1: Sys, s2: Sys)
    requires Paired(pr) && s1 == Next(pr, InitSys(epA, epB), Opening(pr, path)[0])
             && s2 == Next(pr, s1, Opening(pr, path)[1])
    ensures Allowed(pr, InitSys(epA, epB), Opening(pr, path)[0]) && Allowed(pr, s1, Opening(pr, path)[1])
    ensures s2.next == 2 && s2.a.peer.hs.initiating == Some(Initiating(Some(Hello(Own(1), 0)), None, Message1))
    ensures s2.b == InitSys(epA, epB).b && s2.a.peer.clocks.lastHS1 == Budget.SECOND
  {
  }

  /** The responder has answered and waits for the HS3 that is on its way. */
  ghost predicate HalfOpened(pr: Pair, epB: Option<Address>, path: Path, s: Sys) {
    var h := Hello(Own(1), 0);
    && s.next == 4 && s.b.peer.live == Init(epB).live && s.b.peer.burst == Burst(Budget.SECOND, 1)
    && s.b.peer.hs.responding == Some(Responding(Some(h), Some(Own(2)), Message2))
    && (path == Relay ==> Hs3(Some(Transcript(h, Own(2), pr.a.me, pr.b.me))) in s.net)
  }

  /** Its answer and the answer's arrival. */
  lemma OpeningAnswers(pr: Pair, epA: Option<Address>, epB: Option<Address>, path: Path, s2: Sys, s3: Sys, s4: Sys)
    requires Paired(pr) && epB.Some? && s2.next == 2 && s2.b == InitSys(epA, epB).b
    requires s2.a.peer.hs.initiating == Some(Initiating(Some(Hello(Own(1), 0)), None, Message1))
    requires s3 == Next(pr, s2, Opening(pr, path)[2]) && s4 == Next(pr, s3, Opening(pr, path)[3])
    ensures Allowed(pr, s2, Opening(pr, path)[2]) && Allowed(pr, s3, Opening(pr, path)[3])
    ensures s4.a.peer.live.established && s4.a.peer.hs.cache.hs3Pending && s4.b.peer.live.sess.None?
    ensures s4.a.peer.route.mode == s4.a.peer.route.path == path
    ensures s4.a.peer.clocks.lastHS1 == s2.a.peer.clocks.lastHS1
    ensures HalfOpened(pr, epB, path, s4)
  {
  }

  /** Reachable from two new peers: the initiator is up and waits for data, the responder is half-open. */
  lemma OpeningIsReached(pr: Pair, epA: Option<Address>, epB: Option<Address>, path: Path, es: seq<Step>)
    returns (s: Sys)
    requires Paired(pr) && epB.Some? && 4 <= |es| && es[..4] == Opening(pr, path)
    ensures Reached(pr, epA, epB, es, 4, s)
    ensures s.a.peer.live.established && s.a.peer.hs.cache.hs3Pending && s.b.peer.live.sess.None?
    ensures s.a.peer.route.mode == s.a.peer.route.path == path && s.a.peer.clocks.lastHS1 == Budget.SECOND
    ensures HalfOpened(pr, epB, path, s)
  {
    var s0 := InitSys(epA, epB);
    var s1 := Next(pr, s0, es[..4][0]);
    var s2 := Next(pr, s1, es[..4][1]);
    var s3 := Next(pr, s2, es[..4][2]);
    s := Next(pr, s3, es[..4][3]);
    OpeningAsks(pr, epA, epB, path, s1, s2);
    OpeningAnswers(pr, epA, epB, path, s2, s3, s);
    ReachedNext(pr, epA, epB, es, 0, s0, s1);
    ReachedNext(pr, epA, epB, es, 1, s1, s2);
    ReachedNext(pr, epA, epB, es, 2, s2, s3);
    ReachedNext(pr, epA, epB, es, 3, s3, s);
  }

  /** A run of two new peers in which the late switch comes before the responder has the session. */
  lemma LateSwitchIsReached(pr: Pair, epA: Option<Address>, epB: Option<Address>) returns (s: Sys)
    requires Paired(pr) && pr.a.relay.Some? && epB.Some?
    ensures var es := Opening(pr, Direct) + [AtA(Switch(Direct), Budget.SECOND)];
            Reached(pr, epA, epB, es, 5, s) && Stranded(s.a.peer, Budget.SECOND) && s.b.peer.live.sess.None?
  {
    var es := Opening(pr, Direct) + [AtA(Switch(Direct), Budget.SECOND)];
    var p := OpeningIsReached(pr, epA, epB, Direct, es);
    s := Next(pr, p, es[4]);
    ReachedNext(pr, epA, epB, es, 4, p, s);
    LateSwitchStrands(pr.a, p.a.peer, p.next, Budget.SECOND);
  }

  /** The opening over the relay; then the initiator learns a direct endpoint and retries it when due. */
  function Roaming(pr: Pair, ep: Address): seq<Step> {
    Opening(pr, Relay) + [AtA(Move(Some(ep)), 12 * Budget.SECOND), AtA(Retry, 12 * Budget.SECOND)]
  }

  /** A run of two new peers in which a retry that is due comes before the responder has the session. */
  lemma RetryIsReached(pr: Pair, epA: Option<Address>, epB: Option<Address>, ep: Address) returns (p: Sys, s: Sys)
    requires Paired(pr) && epB.Some?
    ensures Reached(pr, epA, epB, Roaming(pr, ep), 5, p) && RetryDue(pr.a, p.a.peer, 12 * Budget.SECOND)
    ensures p.a.peer.hs.cache.hs3Pending && p.b.peer.live.sess.None?
    ensures Reached(pr, epA, epB, Roaming(pr, ep), 6, s) && Stranded(s.a.peer, 12 * Budget.SECOND)
    ensures s.b.peer.live.sess.None?
  {
    var es := Roaming(pr, ep);
    var o := OpeningIsReached(pr, epA, epB, Relay, es);
    p := Next(pr, o, es[4]);
    s := Next(pr, p, es[5]);
    ReachedNext(pr, epA, epB, es, 4, o, p);
    ReachedNext(pr, epA, epB, es, 5, p, s);
    RetryStrands(pr.a, p.a.peer, p.next, 12 * Budget.SECOND);
  }

  /** The opening over the relay and its HS3; then a direct retry that is due, whose HS1 reaches the responder. */
  function Following(pr: Pair, ep: Address): seq<Step> {
    var h := Hello(Own(1), 0);
    var t := Transcript(h, Own(2), pr.a.me, pr.b.me);
    Opening(pr, Relay)
    + [AtB(Receive(Hs3(Some(t)), Relay), Budget.SECOND), AtA(Move(Some(ep)), 12 * Budget.SECOND),
       AtA(Retry, 12 * Budget.SECOND), AtB(Receive(Hs1(Some(Hello(Own(6), 0))), Direct), 12 * Budget.SECOND)]
  }

  /** HS3 arrives. */
  lemma FollowingInstalls(pr: Pair, epA: Option<Address>, epB: Option<Address>, ep: Address, s4: Sys, s5: Sys)
    requires Paired(pr) && HalfOpened(pr, epB, Relay, s4) && s5 == Next(pr, s4, Following(pr, ep)[4])
    ensures Allowed(pr, s4, Following(pr, ep)[4]) && s5.a == s4.a && s5.next == 5
    ensures s5.b.peer.live.established && s5.b.peer.hs.responding.None? && s5.b.peer.burst == Burst(Budget.SECOND, 1)
    ensures s5.b.peer.route.mode == s5.b.peer.route.path == Relay
  {
  }

  /** The initiator learns a direct endpoint and retries it. */
  lemma FollowingRetries(pr: Pair, ep: Address, s5: Sys, s6: Sys, s7: Sys)
    requires Paired(pr) && s5.next == 5 && s6 == Next(pr, s5, Following(pr, ep)[5])
             && s7 == Next(pr, s6, Following(pr, ep)[6])
    requires s5.a.peer.live.established && s5.a.peer.route.mode == s5.a.peer.route.path == Relay
    requires s5.a.peer.clocks.lastHS1 == Budget.SECOND
    ensures Allowed(pr, s5, Following(pr, ep)[5]) && Allowed(pr, s6, Following(pr, ep)[6])
    ensures RetryDue(pr.a, s6.a.peer, 12 * Budget.SECOND) && s7.b == s5.b && Hs1(Some(Hello(Own(6), 0))) in s7.net
  {
  }

  /** The responder answers the direct HS1. */
  lemma FollowingParts(pr: Pair, ep: Address, s7: Sys, s8: Sys)
    requires Paired(pr) && s8 == Next(pr, s7, Following(pr, ep)[7]) && Hs1(Some(Hello(Own(6), 0))) in s7.net
    requires s7.b.peer.hs.responding.None? && s7.b.peer.burst == Burst(Budget.SECOND, 1)
    requires s7.b.peer.route.mode == s7.b.peer.route.path == Relay
    ensures Allowed(pr, s7, Following(pr, ep)[7]) && s8.b.peer.live == s7.b.peer.live
    ensures s8.b.peer.route.mode == Direct && s8.b.peer.route.path == Relay
  {
  }

  /** A run of two new peers in which nothing but roaming parts an established responder's handshake path from
      its data path. */
  lemma FollowingIsReached(pr: Pair, epA: Option<Address>, epB: Option<Address>, ep: Address) returns (p: Sys, s: Sys)
    requires Paired(pr) && epB.Some?
    ensures Reached(pr, epA, epB, Following(pr, ep), 7, p) && p.b.peer.live.established
    ensures p.b.peer.route.mode == p.b.peer.route.path == Relay
    ensures Reached(pr, epA, epB, Following(pr, ep), 8, s) && s.b.peer.live == p.b.peer.live
    ensures s.b.peer.route.mode == Direct && s.b.peer.route.path == Relay
  {
    var es := Following(pr, ep);
    var s4 := OpeningIsReached(pr, epA, epB, Relay, es);
    var s5 := Next(pr, s4, es[4]);
    var s6 := Next(pr, s5, es[5]);
    p := Next(pr, s6, es[6]);
    s := Next(pr, p, es[7]);
    FollowingInstalls(pr, epA, epB, ep, s4, s5);
    FollowingRetries(pr, ep, s5, s6, p);
    FollowingParts(pr, ep, p, s);
    ReachedNext(pr, epA, epB, es, 4, s4, s5);
    ReachedNext(pr, epA, epB, es, 5, s5, s6);
    ReachedNext(pr, epA, epB, es, 6, s6, p);
    ReachedNext(pr, epA, epB, es, 7, p, s);
  }

  // Nothing is lost from the books

  function Volume(items: seq<Item>): nat {
    if items == [] then 0 else Volume(items[..|items| - 1]) + |items[|items| - 1].text|
  }

  /** The byte counters are the volume of the payloads sent and accepted. Every installed session is either
      live, dropped by a forced re-handshake, or was replaced while live, which is what the rekey counter counts. */
  ghost predicate Tallied(n: Node, drops: nat) {
    && n.peer.tallies.bytesTx == Volume(n.sent) && n.peer.tallies.bytesRx == Volume(n.got)
    && |n.installs| == n.peer.tallies.rekeyCount + drops + (if n.peer.live.sess.Some? then 1 else 0)
    && (n.peer.live.sess.Some? ==> BindingOf(n.peer).Some?)
  }

  /** A forced re-handshake that drops a live session. */
  function DroppedBy(p: PeerState, l: Local): nat { if l.Force? && p.live.sess.Some? then 1 else 0 }

  function DropsIn(s: Sys, e: Step, initiator: bool): nat {
    match e
    case AtA(l, _) => if initiator then DroppedBy(s.a.peer, l) else 0
    case AtB(l, _) => if initiator then 0 else DroppedBy(s.b.peer, l)
    case Elsewhere(_) => 0
  }

  /** How many live sessions the initiator's or the responder's side dropped in the first n steps. */
  function Drops(pr: Pair, epA: Option<Address>, epB: Option<Address>, es: seq<Step>, n: nat, initiator: bool): nat
    requires n <= |es|
  {
    if n == 0 then 0
    else Drops(pr, epA, epB, es, n - 1, initiator) + DropsIn(SysAt(pr, epA, epB, es, n - 1), es[n - 1], initiator)
  }

  lemma VolumeAppend(items: seq<Item>, x: Option<Item>)
    ensures Volume(Append(items, x)) == Volume(items) + (if x.Some? then |x.value.text| else 0)
  {
    if x.Some? { assert (items + [x.value])[..|items|] == items; }
  }

  lemma TalliesStep(self: Self, p: PeerState, l: Local, draw: nat, now: Time)
    requires p.live.sess.Some? ==> BindingOf(p).Some?
    ensures var q := Act(self, p, l, draw, now).0;
            && q.tallies.bytesTx == p.tallies.bytesTx + (if SentBy(p, l).Some? then |SentBy(p, l).value.text| else 0)
            && q.tallies.bytesRx == p.tallies.bytesRx + (if GotBy(p, l).Some? then |GotBy(p, l).value.text| else 0)
            && (q.live.sess.Some? ==> BindingOf(q).Some?)
  {
  }

  lemma SessionsStep(self: Self, p: PeerState, l: Local, draw: nat, now: Time)
    ensures var q := Act(self, p, l, draw, now).0;
            && q.tallies.rekeyCount
               == p.tallies.rekeyCount + (if InstalledBy(self, p, l).Some? && p.live.sess.Some? then 1 else 0)
            && (q.live.sess.Some? <==> InstalledBy(self, p, l).Some? || (p.live.sess.Some? && !l.Force?))
  {
  }

  lemma TalliedStep(self: Self, n: Node, l: Local, draw: nat, now: Time, drops: nat)
    requires Tallied(n, drops)
    ensures Tallied(NodeAfter(self, n, l, draw, now), drops + DroppedBy(n.peer, l))
  {
    TalliesStep(self, n.peer, l, draw, now);
    SessionsStep(self, n.peer, l, draw, now);
    VolumeAppend(n.sent, SentBy(n.peer, l));
    VolumeAppend(n.got, GotBy(n.peer, l));
  }

  lemma TalliedNext(pr: Pair, s: Sys, e: Step, a: nat, b: nat)
    requires Tallied(s.a, a) && Tallied(s.b, b)
    ensures Tallied(Next(pr, s, e).a, a + DropsIn(s, e, true)) && Tallied(Next(pr, s, e).b, b + DropsIn(s, e, false))
  {
    match e {
      case AtA(l, now) => TalliedStep(pr.a, s.a, l, s.next, now, a);
      case AtB(l, now) => TalliedStep(pr.b, s.b, l, s.next, now, b);
      case Elsewhere(_) =>
    }
  }

  lemma TalliedInit(epA: Option<Address>, epB: Option<Address>, s: Sys)
    requires s == InitSys(epA, epB)
    ensures Tallied(s.a, 0) && Tallied(s.b, 0)
  {
  }

  lemma TalliedRun(pr: Pair, epA: Option<Address>, epB: Option<Address>, es: seq<Step>, n: nat, p: Sys, s: Sys,
                   c: nat, d: nat, a: nat, b: nat)
    requires 0 < n <= |es| && p == SysAt(pr, epA, epB, es, n - 1) && s == SysAt(pr, epA, epB, es, n)
    requires c == Drops(pr, epA, epB, es, n - 1, true) && a == Drops(pr, epA, epB, es, n, true)
    requires d == Drops(pr, epA, epB, es, n - 1, false) && b == Drops(pr, epA, epB, es, n, false)
    requires Tallied(p.a, c) && Tallied(p.b, d)
    ensures Tallied(s.a, a) && Tallied(s.b, b)
  {
    TalliedNext(pr, p, es[n - 1], c, d);
  }

  lemma {:induction false} TalliesAddUp(pr: Pair, epA: Option<Address>, epB: Option<Address>, es: seq<Step>, n: nat,
                                        s: Sys, a: nat, b: nat)
    requires n <= |es| && s == SysAt(pr, epA, epB, es, n)
    requires a == Drops(pr, epA, epB, es, n, true) && b == Drops(pr, epA, epB, es, n, false)
    ensures Tallied(s.a, a) && Tallied(s.b, b)
    decreases n
  {
    if n == 0 {
      TalliedInit(epA, epB, s);
    } else {
      var p := SysAt(pr, epA, epB, es, n - 1);
      var c, d := Drops(pr, epA, epB, es, n - 1, true), Drops(pr, epA, epB, es, n - 1, false);
      TalliesAddUp(pr, epA, epB, es, n - 1, p, c, d);
      TalliedRun(pr, epA, epB, es, n, p, s, c, d, a, b);
    }
  }
}
