/** The handshake as it goes over the wire: each message is the one the other side really emitted. */
module MeshRounds {
  import opened Wrappers
  import opened Noise
  import opened SessionSpec
  import opened HandshakeSpec
  import opened KeySchedule
  import opened ReplaySpec
  import opened DataPlane
  import opened WireBudget
  import opened PeerSpec
  import opened MeshSpec
  import opened MeshLedger
  import opened MeshHandshake
  import opened MeshRuns
  import opened MeshTheorems
  import opened PeerEmits
  import Record
  import RelayCodec

  predicate Usable(path: Path, p: PeerState) { path == Relay || p.route.directEP.Some? }

  lemma OnTheWire(sent: Sent, path: Path, p: PeerState, w: Wire)
    requires Leaves(sent, path, p.route.directEP, w) && Usable(path, p)
    ensures w in WiresOf(sent)
  {
  }

  // A lost HS3

  /** The responder waits for the very HS3 of session t. */
  predicate AwaitsClosing(p: PeerState, t: Transcript) {
    p.hs.responding.Some? && p.hs.responding.value.hello == Some(t.hello) && p.hs.responding.value.er == Some(t.er)
  }

  /** In every reachable state with the HS3 pending and a handshake path that can be used, a resend puts the HS3 of
      the initiator's newest session on the wire, and it stays pending. */
  lemma PendingIsResent(pr: Pair, epA: Option<Address>, epB: Option<Address>, es: seq<Step>, n: nat, s: Sys, now: Time,
                        s': Sys)
    requires Reached(pr, epA, epB, es, n, s) && s.a.peer.hs.cache.hs3Pending && Usable(s.a.peer.route.mode, s.a.peer)
    requires s' == Next(pr, s, AtA(Resend, now))
    ensures s.a.installs != [] && Hs3(Some(Last(s.a.installs))) in s'.net
    ensures s'.a.peer.hs == s.a.peer.hs && s'.a.peer.live == s.a.peer.live && s'.b == s.b
  {
    ReachedHolds(pr, epA, epB, es, n, s);
    ResendEmits(pr.a, s.a.peer, s.next, now);
    OnTheWire(Act(pr.a, s.a.peer, Resend, s.next, now).1, s.a.peer.route.mode, s.a.peer,
              Hs3(Some(Last(s.a.installs))));
  }

  /** In every reachable state the HS3 it waits for installs its session at the responder, by the path it came. */
  lemma ClosingInstalls(pr: Pair, epA: Option<Address>, epB: Option<Address>, es: seq<Step>, n: nat, s: Sys,
                        t: Transcript, path: Path, now: Time, s': Sys)
    requires Reached(pr, epA, epB, es, n, s) && AwaitsClosing(s.b.peer, t) && Ours(pr, t)
    requires s' == Next(pr, s, AtB(Receive(Hs3(Some(t)), path), now))
    ensures s'.b.installs == s.b.installs + [t] && BindingOf(s'.b.peer) == Some(t) && s'.a == s.a
    ensures s'.b.peer.route.mode == s'.b.peer.route.path == path && s'.b.peer.hs.responding.None?
  {
    HalfOpenIsCoherent(pr, epA, epB, es, n, s, path, s.next, now);
  }

  /** The step itself is allowed, and leaves the wait as it is. */
  lemma ResendReaches(pr: Pair, epA: Option<Address>, epB: Option<Address>, es: seq<Step>, n: nat, s: Sys,
                      t: Transcript, now: Time, s': Sys)
    requires n < |es| && es[n] == AtA(Resend, now) && s' == Next(pr, s, es[n])
    requires Reached(pr, epA, epB, es, n, s) && s.a.peer.hs.cache.hs3Pending
    requires Usable(s.a.peer.route.mode, s.a.peer) && s.a.installs != [] && t == Last(s.a.installs)
    ensures Reached(pr, epA, epB, es, n + 1, s') && Hs3(Some(t)) in s'.net && s'.b == s.b
    ensures BindingOf(s'.a.peer) == Some(t) && Ours(pr, t)
  {
    ReachedHolds(pr, epA, epB, es, n, s);
    PendingIsResent(pr, epA, epB, es, n, s, now, s');
    ReachedNext(pr, epA, epB, es, n, s, s');
  }

  /** So one resend that arrives makes up for every lost HS3: the responder still waiting for it then holds the
      initiator's session. */
  lemma LostHs3Recovers(pr: Pair, epA: Option<Address>, epB: Option<Address>, es: seq<Step>, n: nat, s: Sys,
                        t: Transcript, now: Time, path: Path, later: Time, s1: Sys, s2: Sys)
    requires n + 2 <= |es| && Reached(pr, epA, epB, es, n, s) && s.a.peer.hs.cache.hs3Pending
    requires Usable(s.a.peer.route.mode, s.a.peer) && s.a.installs != [] && t == Last(s.a.installs)
    requires AwaitsClosing(s.b.peer, t)
    requires es[n] == AtA(Resend, now) && es[n + 1] == AtB(Receive(Hs3(Some(t)), path), later)
    requires s1 == Next(pr, s, es[n]) && s2 == Next(pr, s1, es[n + 1])
    ensures Reached(pr, epA, epB, es, n + 2, s2)
    ensures BindingOf(s2.a.peer) == BindingOf(s2.b.peer) == Some(t) && s2.b.installs == s.b.installs + [t]
  {
    ResendReaches(pr, epA, epB, es, n, s, t, now, s1);
    ReachedNext(pr, epA, epB, es, n + 1, s1, s2);
    ClosingInstalls(pr, epA, epB, es, n + 1, s1, t, path, later, s2);
  }

  // A whole round

  /** The initiator can ask: an attempt is due, and the one under way, if any, is unanswered. */
  predicate ReadyToAsk(self: Self, p: PeerState, h: Hello, draw: nat, now: Time) {
    && self.initiator && now - p.clocks.lastHS1 >= 500_000_000
    && (if p.hs.cache.hs1.Some?
        then p.hs.cache.hs1 == Some(h) && p.hs.initiating == Some(Initiating(Some(h), None, Message1))
        else h == Hello(Own(draw), 0))
  }

  /** The responder can answer: it is idle, within its budget and not live on the direct path. */
  predicate ReadyToAnswer(p: PeerState, now: Time) {
    p.hs.responding.None? && InBudget(p.burst, now) && (p.live.established ==> p.route.path == Relay)
  }

  lemma Asked(pr: Pair, s: Sys, h: Hello, path: Path, now: Time, s': Sys)
    requires Paired(pr) && ReadyToAsk(pr.a, s.a.peer, h, s.next, now) && Usable(path, s.a.peer)
    requires s' == Next(pr, s, AtA(Try(path), now))
    ensures Hs1(Some(h)) in s'.net && s'.b == s.b && s'.next == s.next + 1
    ensures s'.a.peer.hs.initiating == Some(Initiating(Some(h), None, Message1))
    ensures s'.a.installs == s.a.installs && s'.a.got == s.a.got && s'.a.peer.route == s.a.peer.route
            && s'.a.peer.inbox == s.a.peer.inbox
  {
    PunchEmits(pr.a, s.a.peer, path, s.next, now);
    OnTheWire(Act(pr.a, s.a.peer, Try(path), s.next, now).1, path, s.a.peer, Hs1(Some(h)));
  }

  lemma Answered(pr: Pair, s: Sys, h: Hello, a: Answer, path: Path, now: Time, s': Sys)
    requires Paired(pr) && ReadyToAnswer(s.b.peer, now) && Usable(path, s.b.peer)
    requires a == Answer(h, Own(s.next), pr.b.me)
    requires s' == Next(pr, s, AtB(Receive(Hs1(Some(h)), path), now))
    ensures Hs2(Some(a)) in s'.net && s'.a == s.a && s'.next == s.next + 1
    ensures s'.b.peer.hs.responding == Some(Responding(Some(h), Some(a.er), Message2))
    ensures s'.b.installs == s.b.installs && s'.b.peer.route.directEP == s.b.peer.route.directEP
  {
    HelloAnswered(pr.b, s.b.peer, h, path, s.next, now);
    OnTheWire(Act(pr.b, s.b.peer, Receive(Hs1(Some(h)), path), s.next, now).1, path, s.b.peer, Hs2(Some(a)));
  }

  lemma Closed(pr: Pair, s: Sys, a: Answer, t: Transcript, path: Path, now: Time, s': Sys)
    requires Paired(pr) && Expected(pr.a, s.a.peer, a) && Usable(path, s.a.peer)
    requires t == Transcript(a.hello, a.er, pr.a.me, pr.b.me)
    requires s' == Next(pr, s, AtA(Receive(Hs2(Some(a)), path), now))
    ensures Hs3(Some(t)) in s'.net && s'.b == s.b
    ensures s'.a.installs == s.a.installs + [t] && s'.a.got == s.a.got && s'.a.peer.inbox == s.a.peer.inbox
    ensures s'.a.peer.live == Live(Some(InitiatorSession(t)), EMPTY, true) && s'.a.peer.hs.cache.hs3Pending
    ensures s'.a.peer.route.mode == s'.a.peer.route.path == path
  {
    AnswerClosed(pr.a, s.a.peer, a, path, s.next, now);
    OnTheWire(Act(pr.a, s.a.peer, Receive(Hs2(Some(a)), path), s.next, now).1, path, s.a.peer, Hs3(Some(t)));
  }

  lemma Concluded(pr: Pair, s: Sys, t: Transcript, path: Path, now: Time, s': Sys)
    requires Paired(pr) && t.initiator == pr.a.me && t.responder == pr.b.me
    requires s.b.peer.hs.responding == Some(Responding(Some(t.hello), Some(t.er), Message2))
    requires s' == Next(pr, s, AtB(Receive(Hs3(Some(t)), path), now))
    ensures s'.a == s.a && s'.b.installs == s.b.installs + [t] && s'.b.peer.hs.responding.None?
    ensures s'.b.peer.live == Live(Some(ResponderSession(t)), EMPTY, true)
    ensures s'.b.peer.route == Route(path, path, s.b.peer.route.directEP)
  {
  }

  /** A round over a usable path in which nothing is lost: every message handed over is one the other side put on the
      wire just before, and both sides end with the same new session on that path. */
  lemma RoundOnTheWire(pr: Pair, s: Sys, h: Hello, path: Path, now: seq<Time>, a: Answer, t: Transcript,
                       s1: Sys, s2: Sys, s3: Sys, s4: Sys)
    requires Paired(pr) && |now| == 4 && Usable(path, s.a.peer) && Usable(path, s.b.peer)
    requires ReadyToAsk(pr.a, s.a.peer, h, s.next, now[0]) && ReadyToAnswer(s.b.peer, now[1])
    requires a == Answer(h, Own(s.next + 1), pr.b.me) && t == Transcript(h, Own(s.next + 1), pr.a.me, pr.b.me)
    requires s1 == Next(pr, s, AtA(Try(path), now[0]))
    requires s2 == Next(pr, s1, AtB(Receive(Hs1(Some(h)), path), now[1]))
    requires s3 == Next(pr, s2, AtA(Receive(Hs2(Some(a)), path), now[2]))
    requires s4 == Next(pr, s3, AtB(Receive(Hs3(Some(t)), path), now[3]))
    ensures Hs1(Some(h)) in s1.net && Hs2(Some(a)) in s2.net && Hs3(Some(t)) in s3.net
    ensures s4.a.installs == s.a.installs + [t] && s4.b.installs == s.b.installs + [t]
    ensures BindingOf(s4.a.peer) == BindingOf(s4.b.peer) == Some(t) && s4.a.peer.hs.cache.hs3Pending
    ensures s4.a.peer.route.mode == s4.a.peer.route.path == s4.b.peer.route.mode == s4.b.peer.route.path == path
    ensures s4.a.peer.live == Live(Some(InitiatorSession(t)), EMPTY, true)
    ensures s4.b.peer.live == Live(Some(ResponderSession(t)), EMPTY, true)
    ensures s4.a.got == s.a.got && s4.a.peer.inbox == s.a.peer.inbox
    ensures s4.b.peer.route.directEP == s.b.peer.route.directEP
  {
    Asked(pr, s, h, path, now[0], s1);
    Answered(pr, s1, h, a, path, now[1], s2);
    Closed(pr, s2, a, t, path, now[2], s3);
    Concluded(pr, s3, t, path, now[3], s4);
  }

  /** The responder's first payload over the new session, as it leaves. */
  lemma FirstPayload(pr: Pair, s: Sys, t: Transcript, path: Path, text: Bytes, now: Time, s': Sys)
    requires Paired(pr) && s.b.peer.live == Live(Some(ResponderSession(t)), EMPTY, true) && s.b.peer.route.path == path
    requires Usable(path, s.b.peer) && |text| <= (if path == Relay then 65347 else 65480)
    requires s' == Next(pr, s, AtB(Payload(text), now))
    ensures Data(Some(Frame(0, Sealed(Root(t, ToInitiator), 0, text)))) in s'.net && s'.a == s.a
  {
    PayloadEmits(pr.b, s.b.peer, text, s.next, now);
    OnTheWire(Act(pr.b, s.b.peer, Payload(text), s.next, now).1, path, s.b.peer,
              Data(Some(Frame(0, Sealed(Root(t, ToInitiator), 0, text)))));
  }

  /** Its arrival ends the resending of HS3. */
  lemma FirstArrival(pr: Pair, s: Sys, t: Transcript, path: Path, text: Bytes, now: Time, s': Sys)
    requires s.a.peer.live == Live(Some(InitiatorSession(t)), EMPTY, true)
    requires !s.a.peer.inbox.closed && !s.a.peer.inbox.recvClosed
    requires s' == Next(pr, s, AtA(Receive(Data(Some(Frame(0, Sealed(Root(t, ToInitiator), 0, text)))), path), now))
    ensures s'.a.got == s.a.got + [Item(t, 0, text)] && !s'.a.peer.hs.cache.hs3Pending
  {
  }

  /** Such a round and the responder's first payload over it: the payload goes out by the round's path under nonce 0
      of the new session, and its arrival delivers the text and ends the resending of HS3. */
  lemma RoundCarriesPayload(pr: Pair, s: Sys, h: Hello, path: Path, now: seq<Time>, text: Bytes, a: Answer,
                            t: Transcript, f: Frame<Box>, s1: Sys, s2: Sys, s3: Sys, s4: Sys, s5: Sys, s6: Sys)
    requires Paired(pr) && |now| == 6 && Usable(path, s.a.peer) && Usable(path, s.b.peer)
    requires ReadyToAsk(pr.a, s.a.peer, h, s.next, now[0]) && ReadyToAnswer(s.b.peer, now[1])
    requires !s.a.peer.inbox.closed && !s.a.peer.inbox.recvClosed && |text| <= (if path == Relay then 65347 else 65480)
    requires a == Answer(h, Own(s.next + 1), pr.b.me) && t == Transcript(h, Own(s.next + 1), pr.a.me, pr.b.me)
    requires f == Frame(0, Sealed(Root(t, ToInitiator), 0, text))
    requires s1 == Next(pr, s, AtA(Try(path), now[0]))
    requires s2 == Next(pr, s1, AtB(Receive(Hs1(Some(h)), path), now[1]))
    requires s3 == Next(pr, s2, AtA(Receive(Hs2(Some(a)), path), now[2]))
    requires s4 == Next(pr, s3, AtB(Receive(Hs3(Some(t)), path), now[3]))
    requires s5 == Next(pr, s4, AtB(Payload(text), now[4]))
    requires s6 == Next(pr, s5, AtA(Receive(Data(Some(f)), path), now[5]))
    ensures Hs1(Some(h)) in s1.net && Hs2(Some(a)) in s2.net && Hs3(Some(t)) in s3.net && Data(Some(f)) in s5.net
    ensures s6.a.got == s.a.got + [Item(t, 0, text)] && !s6.a.peer.hs.cache.hs3Pending
  {
    RoundOnTheWire(pr, s, h, path, now[..4], a, t, s1, s2, s3, s4);
    FirstPayload(pr, s4, t, path, text, now[4], s5);
    FirstArrival(pr, s5, t, path, text, now[5], s6);
  }

  // Payloads

  lemma SealsIff(initiator: bool, p: PeerState, installs: seq<Transcript>, text: Bytes)
    requires SessionOk(initiator, p.live, installs)
    ensures Encrypted(p, text).Ok?
       <==> && p.live.sess.Some? && |text| <= (if p.route.path == Relay then 65347 else 65480)
            && p.live.sess.value.sendCount <= 0xFFFF_FFFF_FFFF_FFFE
    ensures Encrypted(p, text) == Err(NoSession) <==> p.live.sess.None?
    ensures Encrypted(p, text) == Err(TooLarge)
       <==> p.live.sess.Some? && |text| > (if p.route.path == Relay then 65347 else 65480)
    ensures Encrypted(p, text).Ok? ==> Encrypted(p, text).value.nonce == p.live.sess.value.sendCount
  {
    if p.live.sess.Some? {
      var t := Last(installs);
      SendStep(SYMBOLIC, p.live.sess.value, Root(t, Out(initiator)), Root(t, Out(!initiator)), text);
    }
  }

  /** In every reachable state either peer sends a payload exactly when it holds a session with a nonce left and the
      payload is within the limit of the data path. */
  lemma SendsIff(pr: Pair, epA: Option<Address>, epB: Option<Address>, es: seq<Step>, n: nat, s: Sys, text: Bytes)
    requires Reached(pr, epA, epB, es, n, s)
    ensures forall p | p == s.a.peer || p == s.b.peer ::
              Encrypted(p, text).Ok?
              <==> && p.live.sess.Some? && |text| <= (if p.route.path == Relay then 65347 else 65480)
                   && p.live.sess.value.sendCount <= 0xFFFF_FFFF_FFFF_FFFE
  {
    ReachedHolds(pr, epA, epB, es, n, s);
    SealsIff(true, s.a.peer, s.a.installs, text);
    SealsIff(false, s.b.peer, s.b.installs, text);
  }

  /** And what it sends, 16 bytes of tag included, always fits one UDP datagram, with the longest relay header too,
      and unnests to the nonce and ciphertext sent. */
  lemma SentFits(p: PeerState, text: Bytes, nonce: Uint64, ct: Bytes, src: Bytes, dst: Bytes)
    requires Encrypted(p, text).Ok? && |ct| == |text| + 16 && 1 <= |src| <= 64 && 1 <= |dst| <= 64
    ensures 8 + |ct| <= 65535
    ensures var d := DataFrame(nonce, ct);
            && |d| <= 65507 && Unnest(d) == Some((nonce, ct))
            && (p.route.path == Relay ==>
                  var w := RelayCodec.WrapPacket(RelayCodec.Packet(src, dst, d));
                  w.Ok? && |w.value| <= 65507 && RelayCodec.ParsePacket(w.value) == Ok(RelayCodec.Packet(src, dst, d)))
  {
    FitsOneDatagram(p.route.path, text, nonce, ct, src, dst);
  }
}
